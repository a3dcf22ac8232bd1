/**
 * `#[derive(glib::Variant)]` (glib-macros/src/variant_derive.rs): the
 * implementations the derive writes for a struct, stated as what they do.
 * The static type is a tuple of the field types, `to_variant` builds a
 * tuple of the fields, and `from_variant` reads field i from child i of a
 * container. GLib's `Variant` is represented by a small tree of typed
 * values.
 */
module VariantDerive {
  import opened Wrappers
  import VariantType

  /** The shapes of a struct's fields; a field's type is its GVariant type string. */
  datatype Fields =
    | Named(names: seq<string>, types: seq<string>)
    | Unnamed(types: seq<string>)
    | Unit

  /** What the derive is applied to. */
  datatype Data = Struct(fields: Fields) | Enum | Union

  const ENUM_UNAVAILABLE := "#[derive(glib::Variant)] is not available for enums."
  const UNION_UNAVAILABLE := "#[derive(glib::Variant)] is not available for unions."

  /** `impl_variant`: a struct is derived; an enum or a union stops the macro with a panic. */
  function ImplVariant(data: Data): (r: Result<Fields, string>)
    ensures r.Ok? <==> data.Struct?
    ensures r.Ok? ==> r.value == data.fields
    ensures data.Enum? ==> r == Err(ENUM_UNAVAILABLE)
    ensures data.Union? ==> r == Err(UNION_UNAVAILABLE)
  {
    match data
    case Struct(fields) => Ok(fields)
    case Enum => Err(ENUM_UNAVAILABLE)
    case Union => Err(UNION_UNAVAILABLE)
  }

  /** The field types in declaration order. */
  function FieldTypes(f: Fields): seq<string> {
    match f
    case Named(_, types) => types
    case Unnamed(types) => types
    case Unit => []
  }

  function Concat(ts: seq<string>): string {
    if |ts| == 0 then "" else ts[0] + Concat(ts[1..])
  }

  /**
   * `static_variant_type`: for fields, `(` then each field's type string in
   * order then `)`; for a unit struct, the unit type.
   */
  function StaticVariantType(f: Fields): (r: string)
    ensures |r| >= 2 && r[0] == '(' && r[|r| - 1] == ')'
    ensures r[1..|r| - 1] == Concat(FieldTypes(f))
  {
    if f.Unit? then "()" else "(" + Concat(FieldTypes(f)) + ")"
  }

  /** GLib's unit type `()` is the tuple of no fields: the unit struct and an empty tuple struct agree. */
  lemma UnitIsEmptyTuple(names: seq<string>)
    ensures StaticVariantType(Unit) == StaticVariantType(Unnamed([])) == StaticVariantType(Named(names[..0], []))
  {
  }

  // ------------------------------------------------ validity of the type string

  /** Scanning a type inside a longer string gives the same result, shifted. */
  lemma {:induction false} ScanOneShift(t: string, s: string, off: nat, i: nat)
    requires off + |t| <= |s| && s[off..off + |t|] == t && i <= |t|
    requires VariantType.ScanOne(t, i).Some?
    ensures VariantType.ScanOne(s, off + i) == Some(off + VariantType.ScanOne(t, i).value)
    decreases |t| - i, 0
  {
    assert s[off + i] == t[i];
    if VariantType.IsSingleChar(t[i]) {
    } else if t[i] == 'a' || t[i] == 'm' {
      ScanOneShift(t, s, off, i + 1);
    } else if t[i] == '(' {
      ScanTupleShift(t, s, off, i + 1);
    } else {
      assert t[i] == '{' && i + 1 < |t| && VariantType.IsBasicChar(t[i + 1]);
      assert s[off + i + 1] == t[i + 1];
      ScanOneShift(t, s, off, i + 2);
      var j := VariantType.ScanOne(t, i + 2).value;
      assert s[off + j] == t[j];
    }
  }

  lemma {:induction false} ScanTupleShift(t: string, s: string, off: nat, i: nat)
    requires off + |t| <= |s| && s[off..off + |t|] == t && i <= |t|
    requires VariantType.ScanTuple(t, i).Some?
    ensures VariantType.ScanTuple(s, off + i) == Some(off + VariantType.ScanTuple(t, i).value)
    decreases |t| - i, 1
  {
    assert s[off + i] == t[i];
    if t[i] != ')' {
      ScanOneShift(t, s, off, i);
      ScanTupleShift(t, s, off, VariantType.ScanOne(t, i).value);
    }
  }

  /** Every string of `ts` is a valid type string, stated member by member. */
  ghost predicate AllTypes(ts: seq<string>) {
    |ts| == 0 || (VariantType.IsTypeString(ts[0]) && AllTypes(ts[1..]))
  }

  lemma {:induction false} AllTypesOf(ts: seq<string>)
    requires forall k :: 0 <= k < |ts| ==> VariantType.IsTypeString(ts[k])
    ensures AllTypes(ts)
  {
    if |ts| > 0 {
      assert forall k :: 0 <= k < |ts[1..]| ==> ts[1..][k] == ts[k + 1];
      AllTypesOf(ts[1..]);
    }
  }

  /** A valid type never starts with `)`. */
  lemma TypeStartsWell(t: string)
    requires VariantType.IsTypeString(t)
    ensures |t| > 0 && t[0] != ')'
  {
  }

  /** The members of a tuple, followed by `)`, scan to just past the `)`. */
  lemma {:induction false} MembersScan(s: string, off: nat, ts: seq<string>)
    requires AllTypes(ts)
    requires off + |Concat(ts)| < |s| && s[off..off + |Concat(ts)|] == Concat(ts) && s[off + |Concat(ts)|] == ')'
    ensures VariantType.ScanTuple(s, off) == Some(off + |Concat(ts)| + 1)
    decreases |ts|
  {
    if |ts| == 0 {
      ScanTupleClose(s, off);
    } else {
      var t := ts[0];
      ConcatSlices(s, off, ts);
      MemberScan(t, s, off);
      MembersScan(s, off + |t|, ts[1..]);
    }
  }

  lemma ScanTupleClose(s: string, i: nat)
    requires i < |s| && s[i] == ')'
    ensures VariantType.ScanTuple(s, i) == Some(i + 1)
  {
  }

  /** A tuple member that is a valid type, inside `s` at `off`, is passed over whole. */
  lemma MemberScan(t: string, s: string, off: nat)
    requires VariantType.IsTypeString(t) && off + |t| <= |s| && s[off..off + |t|] == t
    ensures VariantType.ScanTuple(s, off) == VariantType.ScanTuple(s, off + |t|)
  {
    TypeStartsWell(t);
    assert s[off] == t[0];
    ScanOneShift(t, s, off, 0);
    ScanTupleOn(s, off, off + |t|);
  }

  lemma ScanTupleOn(s: string, i: nat, j: nat)
    requires i < |s| && s[i] != ')' && VariantType.ScanOne(s, i) == Some(j)
    ensures VariantType.ScanTuple(s, i) == VariantType.ScanTuple(s, j)
  {
  }

  /** Where `s` holds the concatenation of `ts` at `off`, it holds the first member there and the rest after it. */
  lemma ConcatSlices(s: string, off: nat, ts: seq<string>)
    requires |ts| > 0 && off + |Concat(ts)| <= |s| && s[off..off + |Concat(ts)|] == Concat(ts)
    ensures |Concat(ts)| == |ts[0]| + |Concat(ts[1..])|
    ensures s[off..off + |ts[0]|] == ts[0]
    ensures s[off + |ts[0]|..off + |Concat(ts)|] == Concat(ts[1..])
  {
    var t, rest := ts[0], Concat(ts[1..]);
    assert Concat(ts) == t + rest;
    assert s[off..off + |t|] == Concat(ts)[..|t|];
    assert s[off + |t|..off + |Concat(ts)|] == Concat(ts)[|t|..];
  }

  /**
   * When every field type is a valid type string the struct's type string
   * is valid, so the `unwrap` of the type built for a tuple struct never
   * panics.
   */
  lemma StaticTypeIsValid(f: Fields)
    requires forall k :: 0 <= k < |FieldTypes(f)| ==> VariantType.IsTypeString(FieldTypes(f)[k])
    ensures VariantType.IsTypeString(StaticVariantType(f))
    ensures VariantType.New(StaticVariantType(f)).Ok?
  {
    var ts := FieldTypes(f);
    var s := "(" + Concat(ts) + ")";
    assert s[1..1 + |Concat(ts)|] == Concat(ts);
    AllTypesOf(ts);
    MembersScan(s, 1, ts);
    assert StaticVariantType(f) == s;
  }

  // ------------------------------------------------------------------ values

  /** A GLib variant: a leaf value, or a container of children, each with its type string. */
  datatype Variant =
    | Leaf(ty: string, data: int)
    | Container(ty: string, children: seq<Variant>)

  function TypesOf(vs: seq<Variant>): seq<string>
    ensures |TypesOf(vs)| == |vs|
    ensures forall k :: 0 <= k < |vs| ==> TypesOf(vs)[k] == vs[k].ty
  {
    if |vs| == 0 then [] else [vs[0].ty] + TypesOf(vs[1..])
  }

  /** The field values fit the field types. */
  predicate WellTyped(f: Fields, values: seq<Variant>) {
    TypesOf(values) == FieldTypes(f)
  }

  /**
   * `to_variant`: a unit struct is `()`; otherwise `tuple_from_iter` of the
   * fields' variants, whose type is the tuple of the children's types.
   */
  function ToVariant(f: Fields, values: seq<Variant>): Variant
    requires |values| == |FieldTypes(f)|
  {
    if f.Unit? then Container("()", []) else Container("(" + Concat(TypesOf(values)) + ")", values)
  }

  /** The derived value's type is the derived static type. */
  lemma ToVariantType(f: Fields, values: seq<Variant>)
    requires WellTyped(f, values)
    ensures ToVariant(f, values).ty == StaticVariantType(f)
    ensures ToVariant(f, values).Container? && ToVariant(f, values).children == values
  {
  }

  /**
   * `try_child_get::<T>(i)` on a container: no child there is `Ok(None)`,
   * a child of another type is an error, and a child of type `T` is read.
   */
  function TryChildGet(v: Variant, i: nat, ty: string): Result<Option<Variant>, string>
    requires v.Container?
  {
    if i >= |v.children| then Ok(None)
    else if v.children[i].ty != ty then Err("Type mismatch")
    else Ok(Some(v.children[i]))
  }

  /** The fields from index `i` on, each from the child of the same index; any other answer is `None`. */
  function ReadFields(v: Variant, types: seq<string>, i: nat): (r: Option<seq<Variant>>)
    requires v.Container? && i <= |types|
    decreases |types| - i
  {
    if i == |types| then Some([])
    else match TryChildGet(v, i, types[i])
      case Ok(Some(field)) =>
        (match ReadFields(v, types, i + 1)
         case Some(rest) => Some([field] + rest)
         case None => None)
      case _ => None
  }

  /** `from_variant`: a unit struct always succeeds; otherwise the input must be a container. */
  function FromVariant(f: Fields, v: Variant): Option<seq<Variant>> {
    if f.Unit? then Some([])
    else if !v.Container? then None
    else ReadFields(v, FieldTypes(f), 0)
  }

  /** Reading from `i` succeeds exactly when every child from `i` on exists and has its field's type, and then gives those children. */
  lemma {:induction false} ReadFieldsIff(v: Variant, types: seq<string>, i: nat)
    requires v.Container? && i <= |types|
    ensures ReadFields(v, types, i).Some? <==>
      i == |types| || (|types| <= |v.children| && forall k :: i <= k < |types| ==> v.children[k].ty == types[k])
    ensures ReadFields(v, types, i).Some? ==>
      ReadFields(v, types, i).value == if i == |types| then [] else v.children[i..|types|]
    decreases |types| - i
  {
    if i < |types| {
      ReadFieldsIff(v, types, i + 1);
      var r := ReadFields(v, types, i);
      var next := ReadFields(v, types, i + 1);
      if i < |v.children| && v.children[i].ty == types[i] {
        assert TryChildGet(v, i, types[i]) == Ok(Some(v.children[i]));
        if next.Some? {
          assert r == Some([v.children[i]] + next.value);
          assert |types| <= |v.children|;
          assert v.children[i..|types|] == [v.children[i]] + v.children[i + 1..|types|];
        } else {
          assert r == None;
        }
      } else {
        assert r == None;
      }
    }
  }

  /**
   * `from_variant` succeeds exactly for a container with at least as many
   * children as fields, each of its field's type; field i is child i.
   * Neither the container's own type nor extra children are checked.
   */
  lemma FromVariantIff(f: Fields, v: Variant)
    requires !f.Unit?
    ensures FromVariant(f, v).Some? <==>
      (v.Container? && |FieldTypes(f)| <= |v.children|
       && forall k :: 0 <= k < |FieldTypes(f)| ==> v.children[k].ty == FieldTypes(f)[k])
    ensures FromVariant(f, v).Some? ==> FromVariant(f, v).value == v.children[..|FieldTypes(f)|]
  {
    if v.Container? {
      ReadFieldsIff(v, FieldTypes(f), 0);
    }
  }

  /** A unit struct comes back from any variant, even one that is not a container. */
  lemma UnitAlwaysReads(v: Variant)
    ensures FromVariant(Unit, v) == Some([])
  {
  }

  /** Deriving both directions gives back the fields. */
  lemma RoundTrip(f: Fields, values: seq<Variant>)
    requires WellTyped(f, values)
    ensures FromVariant(f, ToVariant(f, values)) == Some(values)
  {
    if !f.Unit? {
      FromVariantIff(f, ToVariant(f, values));
      assert values[..|values|] == values;
    }
  }
}
