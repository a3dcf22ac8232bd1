/**
 * GVariant type strings (glib/src/variant_type.rs). `VariantTy::new` accepts a
 * string when GLib's type-string scanner (`g_variant_type_string_scan`)
 * succeeds and stops exactly at the end; the scanner is modelled after the
 * GVariant type grammar. `as_array`, `to_owned` and string equality
 * follow; `Display` writes the type string itself.
 */
module VariantType {
  import opened Wrappers

  /** Single-character basic types, plus `?` (any basic type). */
  predicate IsBasicChar(c: char)
  {
    c in "bynqiuxthdsog?"
  }

  /** Single-character definite or indefinite types that are complete on their own. */
  predicate IsSingleChar(c: char)
  {
    IsBasicChar(c) || c == 'v' || c == 'r' || c == '*'
  }

  /**
   * One complete type starting at `i`: its end index, or `None`.
   * `a` and `m` take one element type; `(` takes types up to `)`;
   * `{` takes a basic key type, one value type and `}`.
   */
  function ScanOne(s: string, i: nat): (r: Option<nat>)
    requires i <= |s|
    ensures r.Some? ==> i < r.value <= |s|
    decreases |s| - i, 0
  {
    if i == |s| then None
    else if IsSingleChar(s[i]) then Some(i + 1)
    else if s[i] == 'a' || s[i] == 'm' then ScanOne(s, i + 1)
    else if s[i] == '(' then ScanTuple(s, i + 1)
    else if s[i] == '{' then
      if i + 1 < |s| && IsBasicChar(s[i + 1]) then
        match ScanOne(s, i + 2)
        case Some(j) => if j < |s| && s[j] == '}' then Some(j + 1) else None
        case None => None
      else None
    else None
  }

  /** Members of a tuple starting at `i`, through the closing `)`. */
  function ScanTuple(s: string, i: nat): (r: Option<nat>)
    requires i <= |s|
    ensures r.Some? ==> i < r.value <= |s|
    decreases |s| - i, 1
  {
    if i == |s| then None
    else if s[i] == ')' then Some(i + 1)
    else match ScanOne(s, i)
      case Some(j) => ScanTuple(s, j)
      case None => None
  }

  /** The condition of `VariantTy::new`: `ok && end == limit`. */
  predicate IsTypeString(s: string)
  {
    ScanOne(s, 0) == Some(|s|)
  }

  type VariantTy = s: string | IsTypeString(s) witness "s"

  datatype BoolError = InvalidTypeString(typeString: string)

  /** `VariantTy::new`. */
  function New(s: string): (r: Result<VariantTy, BoolError>)
    ensures r.Ok? <==> ScanOne(s, 0) == Some(|s|)
    ensures r.Ok? ==> r.value == s
    ensures r.Err? ==> r.error == InvalidTypeString(s)
  {
    if ScanOne(s, 0) == Some(|s|) then Ok(s) else Err(InvalidTypeString(s))
  }

  /** The behaviour the module's own tests check. */
  lemma NewExamples()
    ensures New("((iii)s)").Ok?
    ensures New("").Err?
    ensures New("((iii\0)s)").Err?
    ensures New("((iii").Err?
    ensures New("(iii)s").Err?
    ensures New("*").Ok?
  {
    assert ScanOne("((iii)s)", 0) == Some(8) by {
      assert ScanTuple("((iii)s)", 2) == Some(6) by {
        assert ScanTuple("((iii)s)", 5) == Some(6);
      }
      assert ScanTuple("((iii)s)", 6) == Some(8);
    }
    assert ScanOne("((iii\0)s)", 0).None? by {
      assert ScanTuple("((iii\0)s)", 2).None? by {
        assert ScanTuple("((iii\0)s)", 5).None?;
      }
    }
    assert ScanOne("((iii", 0).None? by {
      assert ScanTuple("((iii", 2).None? by {
        assert ScanTuple("((iii", 5).None?;
      }
    }
    assert ScanOne("(iii)s", 0) == Some(5) by {
      assert ScanTuple("(iii)s", 4) == Some(5);
    }
  }

  /** The predefined type strings of GLib (gvarianttype.h). */
  const STRING: string := "s"
  const BYTE: string := "y"
  const OBJECT_PATH: string := "o"
  const DICT_ENTRY: string := "{?*}"
  const STRING_ARRAY: string := "as"
  const BYTE_STRING: string := "ay"
  const BYTE_STRING_ARRAY: string := "aay"
  const OBJECT_PATH_ARRAY: string := "ao"
  const DICTIONARY: string := "a{?*}"

  /** An array of a valid element type is a valid type. */
  lemma ArrayOfValid(t: VariantTy)
    ensures IsTypeString("a" + t)
  {
    ShiftScanOne("a", t, 0);
  }

  /** Scanning is unaffected by a prefix. */
  lemma {:induction false} ShiftScanOne(p: string, s: string, i: nat)
    requires i <= |s|
    ensures ScanOne(p + s, |p| + i) == Shift(|p|, ScanOne(s, i))
    decreases |s| - i, 1
  {
    var ps := p + s;
    if i < |s| {
      assert ps[|p| + i] == s[i];
      if IsSingleChar(s[i]) {
      } else if s[i] == 'a' || s[i] == 'm' {
        ShiftScanOne(p, s, i + 1);
      } else if s[i] == '(' {
        ShiftScanTuple(p, s, i + 1);
      } else if s[i] == '{' {
        ShiftScanEntry(p, s, i);
      }
    }
  }

  /** The dict-entry case of `ShiftScanOne`. */
  lemma {:induction false} ShiftScanEntry(p: string, s: string, i: nat)
    requires i < |s| && s[i] == '{'
    ensures ScanOne(p + s, |p| + i) == Shift(|p|, ScanOne(s, i))
    decreases |s| - i, 0
  {
    var ps := p + s;
    assert ps[|p| + i] == s[i];
    if i + 1 < |s| {
      assert ps[|p| + i + 1] == s[i + 1];
      if IsBasicChar(s[i + 1]) {
        ShiftScanOne(p, s, i + 2);
        var inner := ScanOne(s, i + 2);
        if inner.Some? && inner.value < |s| {
          assert ps[|p| + inner.value] == s[inner.value];
        }
      }
    }
  }

  /** `Some(j)` moved right by `n`. */
  function Shift(n: nat, r: Option<nat>): Option<nat>
  {
    match r
    case Some(j) => Some(n + j)
    case None => None
  }

  lemma {:induction false} ShiftScanTuple(p: string, s: string, i: nat)
    requires i <= |s|
    ensures ScanTuple(p + s, |p| + i) == Shift(|p|, ScanTuple(s, i))
    decreases |s| - i, 2
  {
    var ps := p + s;
    if i < |s| {
      assert ps[|p| + i] == s[i];
      if s[i] != ')' {
        ShiftScanOne(p, s, i);
        match ScanOne(s, i)
        case Some(j) => ShiftScanTuple(p, s, j);
        case None =>
      }
    }
  }

  /**
   * `as_array`: the five predefined cases, then `"a" ++ t`, whose
   * `expect("invalid variant signature")` never fires.
   */
  function AsArray(t: VariantTy): (r: VariantTy)
    ensures r == "a" + t
  {
    ArrayOfValid(t);
    if t == STRING then STRING_ARRAY
    else if t == BYTE then BYTE_STRING
    else if t == BYTE_STRING then BYTE_STRING_ARRAY
    else if t == OBJECT_PATH then OBJECT_PATH_ARRAY
    else if t == DICT_ENTRY then DICTIONARY
    else "a" + t
  }

  /** An owned `VariantType`: a GLib copy `mem` of the type string and its length. */
  datatype VariantType = VariantType(mem: string, len: nat)

  /** `Deref for VariantType`: the first `len` characters. */
  function Deref(v: VariantType): (s: string)
    requires v.len <= |v.mem|
  {
    v.mem[..v.len]
  }

  /** `ToOwned for VariantTy`: copy the string and record its length. */
  function ToOwned(t: VariantTy): (v: VariantType)
    ensures v.len == |t| && v.len <= |v.mem|
    ensures Deref(v) == t
  {
    VariantType(t, |t|)
  }

  /** `PartialEq<str>`/`<String>` for `VariantTy` and `VariantType`: compare the type strings. */
  predicate EqStr(t: VariantTy, other: string)
  {
    t == other
  }

  lemma OwnedEqualsBorrowed(t: VariantTy)
    ensures IsTypeString(Deref(ToOwned(t))) && EqStr(Deref(ToOwned(t)), t)
  {
  }
}
