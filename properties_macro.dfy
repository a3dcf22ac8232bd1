/**
 * glib-macros/src/properties.rs: the decisions of `#[derive(Properties)]`.
 * Each `#[property(...)]` attribute on a field is parsed into a list of
 * property attributes, folded into the received settings, and completed
 * with defaults; the expansion then depends on whether there is a getter
 * and a setter, and on the property names turned into Rust identifiers.
 * Expressions, types and emitted token streams are opaque strings.
 */
module PropertiesMacro {
  import opened Wrappers
  import opened Text

  /** One attribute inside `#[property(...)]` as written: `name`, `name = value` or `name(args) rest`. */
  datatype RawAttr =
    | Bare(ident: string)
    | Assign(ident: string, value: string)
    | Call(ident: string, args: seq<string>, rest: string)

  /** `PropAttr`: a parsed attribute. */
  datatype PropAttr =
    | Builder(required: seq<string>, chained: string)
    | Get(getFn: Option<string>)
    | Set(setFn: Option<string>)
    | Type(ty: string)
    | BuilderField(field: string, fieldValue: Option<string>)
    | Member(member: string)
    | Name(name: string)

  /**
   * `PropAttr::parse`: `name`, `get`, `set`, `type` and `member` take a
   * value after `=`, any other `ident = value` is a builder field; only
   * `builder` takes arguments; bare `get`/`set` use the default accessor,
   * the access flags may not be written by hand, and any other bare ident
   * is a builder field without a value.
   */
  function ParsePropAttr(raw: RawAttr): (r: Result<PropAttr, string>)
    ensures raw.Bare? && raw.ident in {"readwrite", "read_only", "write_only"} ==> r.Err?
    ensures raw.Bare? && raw.ident !in {"get", "set", "readwrite", "read_only", "write_only"} ==>
      r == Ok(BuilderField(raw.ident, None))
    ensures raw.Assign? && raw.ident !in {"name", "get", "set", "type", "member"} ==>
      r == Ok(BuilderField(raw.ident, Some(raw.value)))
    ensures raw.Call? ==> (r.Ok? <==> raw.ident == "builder")
  {
    match raw
    case Assign(ident, value) =>
      if ident == "name" then Ok(Name(value))
      else if ident == "get" then Ok(Get(Some(value)))
      else if ident == "set" then Ok(Set(Some(value)))
      else if ident == "type" then Ok(Type(value))
      else if ident == "member" then Ok(Member(value))
      else Ok(BuilderField(ident, Some(value)))
    case Call(ident, args, rest) =>
      if ident == "builder" then Ok(Builder(args, rest))
      else Err("Unsupported attribute list " + ident + "(...)")
    case Bare(ident) =>
      if ident == "get" then Ok(Get(None))
      else if ident == "set" then Ok(Set(None))
      else if ident in {"readwrite", "read_only", "write_only"} then
        Err(ident + " is a flag managed by the Properties macro. "
            + "Use `get` and `set` to manage read and write access to a property")
      else Ok(BuilderField(ident, None))
  }

  /** `ReceivedAttrs`: what the attributes of one `#[property]` set; later ones override earlier. */
  datatype ReceivedAttrs = ReceivedAttrs(
    getter: Option<Option<string>>,
    setter: Option<Option<string>>,
    ty: Option<string>,
    member: Option<string>,
    name: Option<string>,
    builder: Option<(seq<string>, string)>,
    builderFields: map<string, Option<string>>)

  const NO_ATTRS := ReceivedAttrs(None, None, None, None, None, None, map[])

  /** `set_from_attr`: one attribute overrides its setting. */
  function SetFromAttr(r: ReceivedAttrs, attr: PropAttr): ReceivedAttrs {
    match attr
    case Get(f) => r.(getter := Some(f))
    case Set(f) => r.(setter := Some(f))
    case Name(n) => r.(name := Some(n))
    case Type(t) => r.(ty := Some(t))
    case Member(m) => r.(member := Some(m))
    case Builder(required, chained) => r.(builder := Some((required, chained)))
    case BuilderField(k, v) => r.(builderFields := r.builderFields[k := v])
  }

  /** The fold of `ReceivedAttrs::new`, over the attributes in order. */
  function Fold(attrs: seq<PropAttr>): ReceivedAttrs {
    if |attrs| == 0 then NO_ATTRS else SetFromAttr(Fold(attrs[..|attrs| - 1]), attrs[|attrs| - 1])
  }

  /** The last `get` attribute decides the getter, and there is one exactly when some attribute is `get`. */
  lemma {:induction false} FoldGetIsLast(attrs: seq<PropAttr>)
    ensures Fold(attrs).getter.Some? <==> exists i :: 0 <= i < |attrs| && attrs[i].Get?
    ensures Fold(attrs).getter.Some? ==>
      exists i :: 0 <= i < |attrs| && attrs[i] == Get(Fold(attrs).getter.value)
        && forall j :: i < j < |attrs| ==> !attrs[j].Get?
  {
    if |attrs| > 0 {
      var init := attrs[..|attrs| - 1];
      FoldGetIsLast(init);
      assert forall i :: 0 <= i < |init| ==> init[i] == attrs[i];
      if !attrs[|attrs| - 1].Get? && Fold(attrs).getter.Some? {
        var i :| 0 <= i < |init| && init[i] == Get(Fold(init).getter.value)
          && forall j :: i < j < |init| ==> !init[j].Get?;
        assert attrs[i] == Get(Fold(attrs).getter.value);
      }
    }
  }

  /**
   * `ReceivedAttrs::new`: the folded settings, or an error when neither
   * `get` nor `set` was given.
   */
  function Receive(attrs: seq<PropAttr>): (r: Result<ReceivedAttrs, string>)
    ensures r.Ok? <==> exists i :: 0 <= i < |attrs| && (attrs[i].Get? || attrs[i].Set?)
    ensures r.Ok? ==> r.value == Fold(attrs)
  {
    FoldGetIsLast(attrs);
    FoldSetPresent(attrs);
    var received := Fold(attrs);
    if received.getter.None? && received.setter.None? then
      Err("No `get` or `set` specified: at least one is required.")
    else Ok(received)
  }

  lemma {:induction false} FoldSetPresent(attrs: seq<PropAttr>)
    ensures Fold(attrs).setter.Some? <==> exists i :: 0 <= i < |attrs| && attrs[i].Set?
  {
    if |attrs| > 0 {
      var init := attrs[..|attrs| - 1];
      FoldSetPresent(init);
      assert forall i :: 0 <= i < |init| ==> init[i] == attrs[i];
    }
  }

  /** `PropDesc`: the received settings with the name and type filled in. */
  datatype PropDesc = PropDesc(
    fieldIdent: string,
    ty: string,
    name: string,
    getter: Option<Option<string>>,
    setter: Option<Option<string>>,
    member: Option<string>,
    builder: Option<(seq<string>, string)>,
    builderFields: map<string, Option<string>>)

  /** `PropDesc::new`. */
  function Describe(fieldIdent: string, fieldTy: string, attrs: ReceivedAttrs): (d: PropDesc)
    ensures d.name == (if attrs.name.Some? then attrs.name.value else DashedName(fieldIdent))
    ensures d.ty == (if attrs.ty.Some? then attrs.ty.value else fieldTy)
    ensures d.getter == attrs.getter && d.setter == attrs.setter && d.builderFields == attrs.builderFields
  {
    PropDesc(fieldIdent,
      if attrs.ty.Some? then attrs.ty.value else fieldTy,
      if attrs.name.Some? then attrs.name.value else DashedName(fieldIdent),
      attrs.getter, attrs.setter, attrs.member, attrs.builder, attrs.builderFields)
  }

  /** A field with the attribute lists of its `#[property]` attributes (other attributes are ignored). */
  datatype Field = Field(ident: string, ty: string, propertyAttrs: seq<seq<RawAttr>>)

  /** Parses one attribute list: the first failing attribute's error, or the parsed list. */
  function ParseAttrList(raw: seq<RawAttr>): (r: Result<seq<PropAttr>, string>)
    ensures r.Ok? ==> |r.value| == |raw| && forall i :: 0 <= i < |raw| ==> ParsePropAttr(raw[i]) == Ok(r.value[i])
    ensures r.Ok? <==> forall i :: 0 <= i < |raw| ==> ParsePropAttr(raw[i]).Ok?
  {
    if |raw| == 0 then Ok([])
    else
      match ParsePropAttr(raw[0])
      case Err(e) => Err(e)
      case Ok(a) =>
        match ParseAttrList(raw[1..])
        case Err(e) => Err(e)
        case Ok(rest) => Ok([a] + rest)
  }

  /** One property per `#[property]` attribute of a field. */
  function FieldProps(ident: string, ty: string, lists: seq<seq<RawAttr>>): (r: Result<seq<PropDesc>, string>)
    ensures r.Ok? ==> |r.value| == |lists|
  {
    if |lists| == 0 then Ok([])
    else
      match ParseAttrList(lists[0])
      case Err(e) => Err(e)
      case Ok(attrs) =>
        match Receive(attrs)
        case Err(e) => Err(e)
        case Ok(received) =>
          match FieldProps(ident, ty, lists[1..])
          case Err(e) => Err(e)
          case Ok(rest) => Ok([Describe(ident, ty, received)] + rest)
  }

  /** `parse_fields`: the properties of all fields, in field order, or the first error. */
  function ParseFields(fields: seq<Field>): (r: Result<seq<PropDesc>, string>)
    ensures r.Ok? ==> forall p :: p in r.value ==> p.getter.Some? || p.setter.Some?
  {
    if |fields| == 0 then Ok([])
    else
      match FieldProps(fields[0].ident, fields[0].ty, fields[0].propertyAttrs)
      case Err(e) => Err(e)
      case Ok(props) =>
        FieldPropsAccess(fields[0].ident, fields[0].ty, fields[0].propertyAttrs);
        match ParseFields(fields[1..])
        case Err(e) => Err(e)
        case Ok(rest) => Ok(props + rest)
  }

  /** Every property a field yields has a getter or a setter. */
  lemma {:induction false} FieldPropsAccess(ident: string, ty: string, lists: seq<seq<RawAttr>>)
    ensures FieldProps(ident, ty, lists).Ok? ==>
      forall p :: p in FieldProps(ident, ty, lists).value ==> p.getter.Some? || p.setter.Some?
  {
    if |lists| > 0 {
      FieldPropsAccess(ident, ty, lists[1..]);
    }
  }

  datatype Access = ReadWrite | ReadOnly | WriteOnly

  /** The access flag of a property's param spec. */
  function AccessOf(p: PropDesc): (a: Access)
    requires p.getter.Some? || p.setter.Some?
    ensures a == ReadWrite <==> p.getter.Some? && p.setter.Some?
    ensures a == ReadOnly <==> p.getter.Some? && p.setter.None?
    ensures a == WriteOnly <==> p.getter.None? && p.setter.Some?
  {
    if p.getter.Some? && p.setter.Some? then ReadWrite
    else if p.getter.Some? then ReadOnly
    else WriteOnly
  }

  /** A public getter method is generated exactly when there is a getter. */
  function HasGetter(p: PropDesc): bool {
    p.getter.Some?
  }

  /** A public setter method is generated when there is a setter and the property is not construct-only. */
  function HasSetter(p: PropDesc): (b: bool)
    ensures b ==> p.setter.Some?
    ensures "construct_only" in p.builderFields ==> !b
  {
    p.setter.Some? && "construct_only" !in p.builderFields
  }

  /** `name_to_ident`: the property name with `_` for `-`. */
  function NameToIdent(name: string): (ident: string)
    ensures '-' !in ident && |ident| == |name|
  {
    ReplaceChar(name, '-', '_')
  }

  /** `name_to_ident` only undoes `DashedName`'s `-`: a default name maps back to the trimmed field name. */
  lemma DefaultNameToIdent(fieldIdent: string)
    requires '-' !in fieldIdent
    ensures NameToIdent(DashedName(fieldIdent)) == TrimMatches(fieldIdent, '_')
  {
    var t := TrimMatches(fieldIdent, '_');
    assert forall i :: 0 <= i < |t| ==> NameToIdent(DashedName(fieldIdent))[i] == t[i];
  }

  /** The methods generated on the wrapper type for a property. */
  function WrapperMethods(p: PropDesc): (names: seq<string>)
    ensures "connect_" + NameToIdent(p.name) + "_notify" in names
    ensures "notify_" + NameToIdent(p.name) in names
    ensures NameToIdent(p.name) in names <==> HasGetter(p)
  {
    var ident := NameToIdent(p.name);
    (if HasGetter(p) then [ident] else [])
    + (if HasSetter(p) then ["set_" + ident] else [])
    + ["connect_" + ident + "_notify", "notify_" + ident]
  }

  /** Whether `name[k]` starts a `-`-separated segment. */
  predicate SegmentStart(name: string, k: int)
    requires 0 <= k < |name|
  {
    k == 0 || name[k - 1] == '-'
  }

  /** `name` with the first character of every segment in ASCII upper case. */
  function Capitalised(name: string, k: int): char
    requires 0 <= k < |name|
  {
    if SegmentStart(name, k) then ToAsciiUpper(name[k]) else name[k]
  }

  /** `s` without its `-` characters. */
  function RemoveDashes(s: string): (r: string)
    ensures '-' !in r
  {
    if |s| == 0 then [] else (if s[0] == '-' then [] else [s[0]]) + RemoveDashes(s[1..])
  }

  /**
   * Within one segment `name[start..start + len]` only the first character
   * is a segment start, so capitalising the segment upper-cases exactly that one.
   */
  lemma SegmentCapitalised(name: string, start: nat, len: nat)
    requires start + len <= |name|
    requires start > 0 ==> name[start - 1] == '-'
    requires forall k :: start <= k < start + len ==> name[k] != '-'
    ensures forall k :: start <= k < start + len ==>
      Capitalised(name, k) == if k == start then ToAsciiUpper(name[k]) else name[k]
  {
  }

  /**
   * `name_to_enum_ident`: walks the name segment by segment, upper-casing
   * the first character of each in place, then drops the `-`s.
   */
  method NameToEnumIdent(name: string) returns (ident: string)
    ensures ident == RemoveDashes(CapitalisedName(name))
  {
    var s := name;
    var start := 0;
    while true
      invariant 0 <= start <= |name| && |s| == |name|
      invariant start > 0 ==> name[start - 1] == '-'
      invariant forall k :: 0 <= k < start ==> s[k] == Capitalised(name, k)
      invariant s[start..] == name[start..]
      decreases |name| - start
    {
      var found := FirstIndex(s[start..], '-');
      if found.None? {
        break;
      }
      var i := found.value;
      assert forall k :: start <= k < start + i ==> name[k] == s[start..][..i][k - start];
      SegmentCapitalised(name, start, i);
      assert name[start + i] == '-';
      if i > 0 {
        s := s[start := ToAsciiUpper(s[start])];
      }
      assert s[start + i + 1..] == name[start + i + 1..] by {
        assert s[start + i + 1..] == s[start..][i + 1..];
      }
      start := start + i + 1;
    }
    assert forall k :: start <= k < |name| ==> name[k] == s[start..][k - start];
    SegmentCapitalised(name, start, |name| - start);
    if start < |name| {
      s := s[start := ToAsciiUpper(s[start])];
    }
    assert s == CapitalisedName(name);
    ident := RemoveDashes(s);
  }

  /** The name with every segment's first character upper-cased, `-`s kept. */
  function CapitalisedName(name: string): (r: string)
    ensures |r| == |name|
  {
    seq(|name|, k requires 0 <= k < |name| => Capitalised(name, k))
  }

  /** The first character of a segment in ASCII upper case. */
  function Capitalise(segment: string): string {
    if |segment| == 0 then [] else [ToAsciiUpper(segment[0])] + segment[1..]
  }

  /** The segments, each capitalised, put together without separators. */
  function JoinCapitalised(segments: seq<string>): string {
    if |segments| == 0 then [] else Capitalise(segments[0]) + JoinCapitalised(segments[1..])
  }

  lemma {:induction false} RemoveDashesConcat(a: string, b: string)
    ensures RemoveDashes(a + b) == RemoveDashes(a) + RemoveDashes(b)
  {
    if |a| > 0 {
      assert (a + b)[0] == a[0];
      assert (a + b)[1..] == a[1..] + b;
      RemoveDashesConcat(a[1..], b);
    } else {
      assert a + b == b;
    }
  }

  lemma {:induction false} RemoveDashesNone(a: string)
    requires '-' !in a
    ensures RemoveDashes(a) == a
  {
    if |a| > 0 {
      RemoveDashesNone(a[1..]);
      assert a == [a[0]] + a[1..];
    }
  }

  /** A name without `-` is one segment: only its first character is capitalised. */
  lemma CapitalisedOneSegment(a: string)
    requires '-' !in a
    ensures CapitalisedName(a) == Capitalise(a)
  {
    if |a| > 0 {
      assert forall k :: 0 < k < |a| ==> !SegmentStart(a, k);
    }
  }

  /** Capitalising a name whose first `-` follows `a` capitalises `a` and the rest on their own. */
  lemma CapitalisedAtFirst(a: string, b: string)
    requires '-' !in a
    ensures CapitalisedName(a + ['-'] + b) == CapitalisedName(a) + ['-'] + CapitalisedName(b)
  {
    var name := a + ['-'] + b;
    var lhs, rhs := CapitalisedName(name), CapitalisedName(a) + ['-'] + CapitalisedName(b);
    forall k | 0 <= k < |name|
      ensures lhs[k] == rhs[k]
    {
      if k < |a| {
        assert SegmentStart(name, k) == SegmentStart(a, k);
      } else if k > |a| {
        assert SegmentStart(name, k) == SegmentStart(b, k - |a| - 1);
      }
    }
  }

  /**
   * The in-place walk agrees with the reference reading of the source's
   * last line: split at `-`, capitalise each piece, concatenate.
   */
  lemma {:induction false} EnumIdentIsJoinedSegments(name: string)
    ensures RemoveDashes(CapitalisedName(name)) == JoinCapitalised(Split(name, '-'))
    decreases |name|
  {
    match FirstIndex(name, '-')
    case None =>
      JoinedOneSegment(name);
    case Some(i) =>
      var a, b := name[..i], name[i + 1..];
      assert name == a + ['-'] + b;
      EnumIdentIsJoinedSegments(b);
      JoinedAtFirst(a, b);
  }

  /** A name without `-` reads the same both ways: its one segment, capitalised. */
  lemma JoinedOneSegment(name: string)
    requires '-' !in name
    ensures RemoveDashes(CapitalisedName(name)) == JoinCapitalised(Split(name, '-'))
  {
    calc {
      RemoveDashes(CapitalisedName(name));
      { CapitalisedOneSegment(name); }
      RemoveDashes(Capitalise(name));
      { RemoveDashesNone(Capitalise(name)); }
      Capitalise(name);
      { assert [name][1..] == []; }
      JoinCapitalised([name]);
      { SplitNoSeparator(name, '-'); }
      JoinCapitalised(Split(name, '-'));
    }
  }

  /** When the two readings agree on what follows the first `-`, they agree on the whole name. */
  lemma JoinedAtFirst(a: string, b: string)
    requires '-' !in a
    requires RemoveDashes(CapitalisedName(b)) == JoinCapitalised(Split(b, '-'))
    ensures RemoveDashes(CapitalisedName(a + ['-'] + b)) == JoinCapitalised(Split(a + ['-'] + b, '-'))
  {
    var capA := Capitalise(a);
    calc {
      RemoveDashes(CapitalisedName(a + ['-'] + b));
      { CapitalisedAtFirst(a, b); CapitalisedOneSegment(a); }
      RemoveDashes(capA + ['-'] + CapitalisedName(b));
      { RemoveDashesAfter(capA, CapitalisedName(b)); }
      capA + RemoveDashes(CapitalisedName(b));
      capA + JoinCapitalised(Split(b, '-'));
      { SplitAtFirst(a, '-', b); assert ([a] + Split(b, '-'))[1..] == Split(b, '-'); }
      JoinCapitalised(Split(a + ['-'] + b, '-'));
    }
  }

  lemma {:induction false} RemoveDashesAfter(capA: string, rest: string)
    requires '-' !in capA
    ensures RemoveDashes(capA + ['-'] + rest) == capA + RemoveDashes(rest)
  {
    var s := capA + ['-'] + rest;
    if |capA| == 0 {
      assert s[0] == '-' && s[1..] == rest;
    } else {
      assert s[0] == capA[0] && s[1..] == capA[1..] + ['-'] + rest;
      RemoveDashesAfter(capA[1..], rest);
      assert capA == [capA[0]] + capA[1..];
    }
  }


  /**
   * `DerivedPropertiesEnum::try_from` for `n` properties: the index of the
   * property when below `n`, the index back as the error otherwise.
   */
  function TryFromIndex(n: nat, item: nat): (r: Result<nat, nat>)
    ensures r.Ok? <==> item < n
    ensures r.Ok? ==> r.value == item
    ensures r.Err? ==> r.error == item
  {
    if item < n then Ok(item) else Err(item)
  }

  /**
   * The property a generated `derived_property`/`derived_set_property`
   * handles for the GObject id `id` (ids start at 1), or a panic (`None`,
   * "missing handler") when `id - 1` names no property; `id == 0` panics
   * on the `usize` subtraction in a debug build and wraps to an id past
   * the end in a release build.
   */
  function HandlerFor(props: seq<PropDesc>, id: nat): (r: Option<PropDesc>)
    ensures r.Some? <==> 1 <= id <= |props|
    ensures r.Some? ==> r.value == props[id - 1]
  {
    if id == 0 then None
    else match TryFromIndex(|props|, id - 1)
      case Ok(k) => Some(props[k])
      case Err(_) => None
  }

  /**
   * The ids GObject gives the installed param specs (1, 2, … in
   * `derived_properties` order) reach the property at that position,
   * which is also the position `notify_*` uses.
   */
  lemma HandlerMatchesInstallOrder(props: seq<PropDesc>, k: nat)
    requires k < |props|
    ensures HandlerFor(props, k + 1) == Some(props[k])
    ensures TryFromIndex(|props|, k) == Ok(k)
  {
  }
}
