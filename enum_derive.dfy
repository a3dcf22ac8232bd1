/**
 * `#[derive(glib::Enum)]` and `#[derive(glib::DynamicEnum)]`
 * (glib-macros/src/enum_derive.rs): the `GEnumValue` table built from the
 * variants, the checks on the input, the conversions to and from the C
 * integer, and the registration of the enum type, statically, or in a
 * plugin eagerly or lazily.
 *
 * heck's case conversions are not modelled: each variant carries its
 * identifier already converted to UpperCamelCase (the default name) and to
 * kebab-case (the default nick). The `#[enum_value]` and `#[enum_type]`
 * attributes arrive parsed, with the parser's error when they do not parse.
 */
module EnumDerive {
  import opened Wrappers
  import opened Types
  import opened DynamicType

  const NUL: char := 0 as char

  /** The `#[enum_value(name = …, nick = …)]` attribute of a variant. */
  datatype ValueAttrs = ValueAttrs(name: Option<string>, nick: Option<string>)

  /**
   * A variant: identifier, discriminant, the default name and nick, and its
   * attribute as parsed (an error when it does not parse).
   */
  datatype EnumVariant = EnumVariant(
    ident: string,
    discriminant: int,
    defaultName: string,
    defaultNick: string,
    attrs: Result<ValueAttrs, string>)

  /** A `GEnumValue`; the strings are NUL-terminated, and `None` is a null pointer. */
  datatype EnumValue = EnumValue(value: int, valueName: Option<string>, valueNick: Option<string>)

  /** An element of the generated table: a value, or the compile error of a variant whose attribute did not parse. */
  datatype TableEntry = ValueEntry(entry: EnumValue) | CompileError(msg: string)

  /** The terminating all-zero `GEnumValue`. */
  const TERMINATOR := EnumValue(0, None, None)

  /** Rust's `as i32` on a discriminant: the low 32 bits, as a signed number. */
  function AsI32(x: int): (r: int)
    ensures -0x8000_0000 <= r < 0x8000_0000
    ensures (r - x) % 0x1_0000_0000 == 0
    ensures -0x8000_0000 <= x < 0x8000_0000 ==> r == x
  {
    (x + 0x8000_0000) % 0x1_0000_0000 - 0x8000_0000
  }

  /** The name of a variant's value: the attribute's `name`, else the default. */
  function ValueName(v: EnumVariant): string
    requires v.attrs.Ok?
  {
    match v.attrs.value.name
    case Some(n) => n
    case None => v.defaultName
  }

  /** The nick of a variant's value: the attribute's `nick`, else the default. */
  function ValueNick(v: EnumVariant): string
    requires v.attrs.Ok?
  {
    match v.attrs.value.nick
    case Some(n) => n
    case None => v.defaultNick
  }

  /**
   * The table entry of one variant: its value `as i32` with its name and
   * nick NUL-terminated; an attribute that does not parse becomes its
   * compile error.
   */
  function EntryOf(v: EnumVariant): (e: TableEntry)
    ensures e.CompileError? <==> v.attrs.Err?
    ensures e.CompileError? ==> e.msg == v.attrs.error
    ensures e.ValueEntry? ==>
      e.entry.value == AsI32(v.discriminant)
      && e.entry.valueName == Some(ValueName(v) + [NUL])
      && e.entry.valueNick == Some(ValueNick(v) + [NUL])
  {
    match v.attrs
    case Err(msg) => CompileError(msg)
    case Ok(_) => ValueEntry(EnumValue(AsI32(v.discriminant), Some(ValueName(v) + [NUL]), Some(ValueNick(v) + [NUL])))
  }

  /** The entries of the variants, in order. */
  function ValueEntries(variants: seq<EnumVariant>): (r: seq<TableEntry>)
    ensures |r| == |variants|
    ensures forall k :: 0 <= k < |variants| ==> r[k] == EntryOf(variants[k])
  {
    if |variants| == 0 then [] else ValueEntries(variants[..|variants| - 1]) + [EntryOf(variants[|variants| - 1])]
  }

  /** How many variants have an attribute that parses. */
  function ParsedCount(variants: seq<EnumVariant>): (n: nat)
    ensures n <= |variants|
  {
    if |variants| == 0 then 0
    else ParsedCount(variants[..|variants| - 1]) + (if variants[|variants| - 1].attrs.Ok? then 1 else 0)
  }

  predicate AllParsed(variants: seq<EnumVariant>) {
    forall k :: 0 <= k < |variants| ==> variants[k].attrs.Ok?
  }

  /** Every variant is counted exactly when every attribute parses. */
  lemma {:induction false} ParsedCountFull(variants: seq<EnumVariant>)
    ensures ParsedCount(variants) == |variants| <==> AllParsed(variants)
    decreases |variants|
  {
    if |variants| > 0 {
      var init := variants[..|variants| - 1];
      ParsedCountFull(init);
      assert forall k :: 0 <= k < |init| ==> init[k] == variants[k];
    }
  }

  /**
   * `gen_enum_values`: the entries of the variants and the size of the
   * `GEnumValue` array, which starts at one for the terminator and counts
   * each variant whose attribute parses.
   */
  method GenEnumValues(variants: seq<EnumVariant>) returns (entries: seq<TableEntry>, n: nat)
    ensures entries == ValueEntries(variants)
    ensures n == 1 + ParsedCount(variants)
  {
    n := 1;
    entries := [];
    var k := 0;
    while k < |variants|
      invariant 0 <= k <= |variants|
      invariant entries == ValueEntries(variants[..k])
      invariant n == 1 + ParsedCount(variants[..k])
    {
      var v := variants[k];
      assert variants[..k + 1][..k] == variants[..k];
      match v.attrs {
        case Err(e) =>
          entries := entries + [CompileError(e)];
        case Ok(_) =>
          n := n + 1;
          entries := entries + [ValueEntry(EnumValue(AsI32(v.discriminant), Some(ValueName(v) + [NUL]), Some(ValueNick(v) + [NUL])))];
      }
      k := k + 1;
    }
    assert variants[..k] == variants;
  }

  /** The whole `VALUES` array: the entries, then the terminator. */
  function ValueTable(variants: seq<EnumVariant>): seq<TableEntry> {
    ValueEntries(variants) + [ValueEntry(TERMINATOR)]
  }

  /**
   * The declared array size agrees with the entries written exactly when
   * every variant's attribute parses; the table then ends in the
   * terminator, and entry k is variant k with a NUL-terminated name and
   * nick.
   */
  lemma TableSize(variants: seq<EnumVariant>)
    ensures |ValueTable(variants)| == 1 + ParsedCount(variants) <==> AllParsed(variants)
    ensures ValueTable(variants)[|variants|] == ValueEntry(TERMINATOR)
    ensures AllParsed(variants) ==> forall k :: 0 <= k < |variants| ==>
      ValueTable(variants)[k].ValueEntry?
      && ValueTable(variants)[k].entry.value == AsI32(variants[k].discriminant)
      && ValueTable(variants)[k].entry.valueName.Some?
      && ValueTable(variants)[k].entry.valueName.value[|ValueTable(variants)[k].entry.valueName.value| - 1] == NUL
  {
    ParsedCountFull(variants);
  }

  // ------------------------------------------------------------ the input

  const ONLY_ENUMS := "#[derive(glib::Enum)] only supports enums"
  const REQUIRES_ENUM_TYPE := "#[derive(glib::Enum)] requires #[enum_type(name = \"EnumTypeName\")]"
  const REQUIRES_DYNAMIC_ENUM_TYPE :=
    "#[derive(glib::DynamicEnum)] requires #[enum_type(name = \"EnumTypeName\"[, plugin_type =  <subclass_of_glib::TypePlugin>][, lazy_registration = true|false])]"
  const DEFAULT_PLUGIN_TYPE := "TypeModule"

  /**
   * The `#[enum_type(…)]` attribute: absent, present (with the `name`
   * the parser requires), or an error from the parser.
   */
  datatype EnumTypeAttr = EnumTypeAttr(name: string, pluginType: Option<string>, lazyRegistration: Option<bool>)

  /** The derive's input: whether it is an enum, its variants, and its attribute. */
  datatype EnumInput = EnumInput(isEnum: bool, variants: seq<EnumVariant>, attr: Result<Option<EnumTypeAttr>, string>)

  /** What the derive generates, as data: the type name, the table and its declared size, and for the dynamic derive the plugin type and the registration mode. */
  datatype Derived = Derived(gtypeName: string, table: seq<TableEntry>, size: nat, pluginType: string, lazy: bool)

  /**
   * `impl_enum` and `impl_dynamic_enum`: a non-enum and a missing
   * `#[enum_type]` abort with their messages, an attribute that does not
   * parse is returned as its error; otherwise the table is built. The
   * plugin type defaults to `TypeModule` and registration is eager unless
   * `lazy_registration = true`.
   */
  function ImplEnum(input: EnumInput, dynamic: bool): (r: Result<Derived, string>)
    ensures !input.isEnum ==> r == Err(ONLY_ENUMS)
    ensures input.isEnum && input.attr == Ok(None) ==> r == Err(if dynamic then REQUIRES_DYNAMIC_ENUM_TYPE else REQUIRES_ENUM_TYPE)
    ensures input.isEnum && input.attr.Err? ==> r == Err(input.attr.error)
    ensures r.Ok? <==> input.isEnum && input.attr.Ok? && input.attr.value.Some?
    ensures r.Ok? ==>
      r.value.gtypeName == input.attr.value.value.name
      && r.value.table == ValueTable(input.variants)
      && r.value.size == 1 + ParsedCount(input.variants)
      && (r.value.lazy <==> dynamic && input.attr.value.value.lazyRegistration == Some(true))
      && (dynamic && input.attr.value.value.pluginType.None? ==> r.value.pluginType == DEFAULT_PLUGIN_TYPE)
  {
    if !input.isEnum then Err(ONLY_ENUMS)
    else match input.attr
      case Err(e) => Err(e)
      case Ok(None) => Err(if dynamic then REQUIRES_DYNAMIC_ENUM_TYPE else REQUIRES_ENUM_TYPE)
      case Ok(Some(a)) =>
        var plugin := if dynamic && a.pluginType.Some? then a.pluginType.value else DEFAULT_PLUGIN_TYPE;
        var lazy := dynamic && a.lazyRegistration.Some? && a.lazyRegistration.value;
        Ok(Derived(a.name, ValueTable(input.variants), 1 + ParsedCount(input.variants), plugin, lazy))
  }

  // ------------------------------------------------------------ conversions

  /** `into_glib`: the discriminant of variant `i`, `as i32`. */
  function IntoGlib(variants: seq<EnumVariant>, i: nat): int
    requires i < |variants|
  {
    AsI32(variants[i].discriminant)
  }

  /** The first variant from `k` on whose discriminant, `as i32`, is `value`. */
  function FindVariant(variants: seq<EnumVariant>, value: int, k: nat): (r: Option<nat>)
    requires k <= |variants|
    ensures r.Some? ==> k <= r.value < |variants| && IntoGlib(variants, r.value) == value
    ensures r.Some? ==> forall j :: k <= j < r.value ==> IntoGlib(variants, j) != value
    ensures r.None? <==> forall j :: k <= j < |variants| ==> IntoGlib(variants, j) != value
    decreases |variants| - k
  {
    if k == |variants| then None
    else if IntoGlib(variants, k) == value then Some(k)
    else FindVariant(variants, value, k + 1)
  }

  /** `try_from_glib`: the variant with that value, else the value itself as the error. */
  function TryFromGlib(variants: seq<EnumVariant>, value: int): Result<nat, int> {
    match FindVariant(variants, value, 0)
    case Some(i) => Ok(i)
    case None => Err(value)
  }

  /** `from_glib`: `try_from_glib(value).unwrap()`; `None` is the panic. */
  function FromGlib(variants: seq<EnumVariant>, value: int): Option<nat> {
    match TryFromGlib(variants, value)
    case Ok(i) => Some(i)
    case Err(_) => None
  }

  /** The values of distinct variants differ once cast to `i32`. */
  predicate DistinctValues(variants: seq<EnumVariant>) {
    forall i, j :: 0 <= i < j < |variants| ==> IntoGlib(variants, i) != IntoGlib(variants, j)
  }

  /**
   * `try_from_glib` fails exactly on a value no variant has, and then
   * returns that value; on success the variant has the value.
   */
  lemma TryFromGlibIff(variants: seq<EnumVariant>, value: int)
    ensures TryFromGlib(variants, value).Err? <==> forall j :: 0 <= j < |variants| ==> IntoGlib(variants, j) != value
    ensures TryFromGlib(variants, value).Err? ==> TryFromGlib(variants, value).error == value
    ensures TryFromGlib(variants, value).Ok? ==>
      TryFromGlib(variants, value).value < |variants| && IntoGlib(variants, TryFromGlib(variants, value).value) == value
    ensures FromGlib(variants, value).None? <==> TryFromGlib(variants, value).Err?
  {
  }

  /** With distinct values, converting a variant to C and back gives the variant. */
  lemma RoundTrip(variants: seq<EnumVariant>, i: nat)
    requires i < |variants| && DistinctValues(variants)
    ensures TryFromGlib(variants, IntoGlib(variants, i)) == Ok(i)
    ensures FromGlib(variants, IntoGlib(variants, i)) == Some(i)
  {
    var r := FindVariant(variants, IntoGlib(variants, i), 0);
    assert r.Some?;
  }

  // ------------------------------------------------------------ registration

  const CSTRING_NEW_FAILED := "CString::new failed"
  const TYPE_NOT_VALID := "assertion failed: type_.is_valid()"
  const ONCE_POISONED := "Once instance has previously been poisoned"

  /** `std::sync::Once`: not run yet, run to completion, or poisoned by a panic. */
  datatype OnceState = Incomplete | Complete | Poisoned

  /**
   * The static registration of `#[derive(glib::Enum)]`: `register_enum`
   * runs the registration once and returns the stored type. The name must
   * convert to a C string and the registered type must be valid; either
   * panic poisons the `Once`.
   */
  class StaticEnum {
    var once: OnceState
    var gtype: GType

    predicate Valid()
      reads this
    {
      once == Complete ==> gtype != TYPE_INVALID
    }

    constructor()
      ensures once == Incomplete && gtype == TYPE_INVALID && Valid()
    {
      once := Incomplete;
      gtype := TYPE_INVALID;
    }

    /** `registered` is what `g_enum_register_static` returns. */
    method RegisterEnum(gtypeName: string, registered: GType) returns (r: Result<GType, string>)
      requires Valid()
      modifies this
      ensures Valid()
      ensures r.Ok? ==> r.value != TYPE_INVALID && r.value == gtype && once == Complete
      ensures old(once) == Complete ==> r == Ok(old(gtype)) && gtype == old(gtype) && once == Complete
      ensures old(once) == Poisoned ==> r == Err(ONCE_POISONED) && once == Poisoned
      ensures old(once) == Incomplete && NUL in gtypeName ==> r == Err(CSTRING_NEW_FAILED) && once == Poisoned
      ensures old(once) == Incomplete && NUL !in gtypeName ==>
        if registered == TYPE_INVALID then r == Err(TYPE_NOT_VALID) && once == Poisoned
        else r == Ok(registered) && once == Complete
    {
      match once {
        case Poisoned =>
          r := Err(ONCE_POISONED);
        case Complete =>
          r := Ok(gtype);
        case Incomplete =>
          if NUL in gtypeName {
            once := Poisoned;
            r := Err(CSTRING_NEW_FAILED);
          } else if registered == TYPE_INVALID {
            once := Poisoned;
            r := Err(TYPE_NOT_VALID);
          } else {
            gtype := registered;
            once := Complete;
            r := Ok(gtype);
          }
      }
    }
  }

  /** The lazily registered dynamic enum: its `REGISTRATION_STATUS`. */
  class LazyDynamicEnum {
    var status: Status

    constructor()
      ensures status == None
    {
      status := None;
    }

    /** `register_enum`; `registered` is what `register_dynamic_enum` returns. */
    method RegisterEnum(registered: GType) returns (t: GType)
      modifies this
      ensures (status, t) == Register(old(status), registered)
    {
      match status {
        case None =>
          t := TYPE_INVALID;
        case Some(Entry(plugin, gtype)) =>
          if gtype == TYPE_INVALID {
            status := Some(Entry(plugin, registered));
            t := registered;
          } else {
            t := gtype;
          }
      }
    }

    /** `on_implementation_load`; `registered` is what re-registering returns. */
    method OnImplementationLoad(plugin: Plugin, registered: GType) returns (ok: bool)
      modifies this
      ensures (status, ok) == Load(old(status), plugin, registered)
    {
      match status {
        case None =>
          status := Some(Entry(plugin, TYPE_INVALID));
          ok := true;
        case Some(Entry(p, gtype)) =>
          if gtype != TYPE_INVALID {
            status := Some(Entry(p, registered));
            ok := registered != TYPE_INVALID;
          } else {
            ok := true;
          }
      }
    }

    /** `on_implementation_unload`. */
    method OnImplementationUnload() returns (ok: bool)
      modifies this
      ensures (status, ok) == Unload(old(status))
    {
      match status {
        case None =>
          ok := false;
        case Some(Entry(_, gtype)) =>
          if gtype != TYPE_INVALID {
            ok := true;
          } else {
            status := None;
            ok := true;
          }
      }
    }
  }

  /** The eagerly registered dynamic enum: its type cell, set on every load. */
  class DynamicEnum {
    var gtype: GType

    constructor()
      ensures gtype == TYPE_INVALID
    {
      gtype := TYPE_INVALID;
    }

    /** `register_enum`: the type stored by the last load, `TYPE_INVALID` before any. */
    method RegisterEnum() returns (t: GType)
      ensures t == gtype
    {
      t := gtype;
    }

    /** `on_implementation_load`: stores what the registration returns and reports whether it is valid. */
    method OnImplementationLoad(registered: GType) returns (ok: bool)
      modifies this
      ensures gtype == registered
      ensures ok <==> gtype != TYPE_INVALID
    {
      gtype := registered;
      ok := gtype != TYPE_INVALID;
    }

    /** `on_implementation_unload`: enums are never unregistered. */
    method OnImplementationUnload() returns (ok: bool)
      ensures ok
    {
      ok := true;
    }
  }
}
