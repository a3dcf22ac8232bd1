/**
 * GLib strings (glib/src/gstring.rs): the borrowed `GStr`, a UTF-8 string
 * stored with its NUL terminator, and the owned `GString`, held either in a
 * Rust `CString` (native) or in a GLib allocation with a length (foreign).
 * Strings are modelled as their UTF-8 bytes.
 */
module GString {
  import opened Wrappers
  import opened Text
  import Translate

  /** Bytes of a `GStr`: exactly one NUL, at the end. */
  type GStrBytes = s: seq<byte> | |s| > 0 && s[|s| - 1] == 0 && 0 !in s[..|s| - 1] witness [0]

  /** The two failures of `CStr::from_bytes_with_nul`. */
  datatype FromBytesWithNulError = InteriorNul(position: nat) | NotNulTerminated

  /** Position of the first NUL in `s`, if any (the `memchr` that `CStr` uses). */
  function FindNul(s: seq<byte>): (r: Option<nat>)
    ensures r.None? <==> 0 !in s
    ensures r.Some? ==> r.value < |s| && s[r.value] == 0 && 0 !in s[..r.value]
  {
    if s == [] then None
    else if s[0] == 0 then Some(0)
    else match FindNul(s[1..])
      case None => None
      case Some(k) => assert s[..k + 1] == [s[0]] + s[1..][..k]; Some(k + 1)
  }

  /** `GStr::from_str_with_nul`. */
  function FromStrWithNul(s: seq<byte>): (r: Result<GStrBytes, FromBytesWithNulError>)
    ensures r.Ok? <==> |s| > 0 && s[|s| - 1] == 0 && 0 !in s[..|s| - 1]
    ensures r.Ok? ==> r.value == s
    ensures r == Err(NotNulTerminated) <==> 0 !in s
  {
    match FindNul(s)
    case None => Err(NotNulTerminated)
    case Some(k) =>
      if k + 1 == |s| then Ok(s)
      else assert s[k] in s[..|s| - 1]; Err(InteriorNul(k))
  }

  /** `GStr::as_str`: clip off the NUL byte. */
  function AsStr(g: GStrBytes): (s: seq<byte>)
    ensures |s| == |g| - 1 && 0 !in s
    ensures s + [0] == g
  {
    g[..|g| - 1]
  }

  /** `GStr::to_bytes_with_nul`. */
  function ToBytesWithNul(g: GStrBytes): (s: seq<byte>)
    ensures s == g
  {
    g
  }

  /** `GStr::to_bytes` is `as_str().as_bytes()`. */
  function ToBytes(g: GStrBytes): (s: seq<byte>)
    ensures s == AsStr(g)
  {
    AsStr(g)
  }

  lemma BytesWithNulIsBytesPlusNul(g: GStrBytes)
    ensures ToBytesWithNul(g) == ToBytes(g) + [0]
    ensures |ToBytes(g)| + 1 == |ToBytesWithNul(g)|
  {
  }

  /** `impl Default for &GStr`: the one-byte slice `[0]`. */
  function DefaultGStr(): (g: GStrBytes)
    ensures AsStr(g) == []
  {
    [0]
  }

  /** A `GStr` read back from `from_str_with_nul` gives the text before the NUL. */
  lemma FromStrWithNulAsStr(s: seq<byte>)
    requires 0 !in s
    ensures FromStrWithNul(s + [0]).Ok?
    ensures AsStr(FromStrWithNul(s + [0]).value) == s
  {
    assert (s + [0])[..|s|] == s;
  }

  /**
   * The storage of a `GString`. `Native` holds the bytes of a `CString`
   * (without its terminator); `Foreign` holds a GLib allocation `mem` of
   * which the first `len` bytes are the string.
   */
  datatype Inner = Native(cstr: seq<byte>) | Foreign(mem: seq<byte>, len: nat)

  predicate Valid(g: Inner)
  {
    g.Foreign? ==> g.len < |g.mem|
  }

  type GStringValue = g: Inner | Valid(g) witness Native([])

  /** `GString::as_str`. */
  function GStringAsStr(g: GStringValue): (s: seq<byte>)
    ensures g.Native? ==> s == g.cstr
    ensures g.Foreign? ==> s == g.mem[..g.len]
  {
    match g
    case Native(c) => c
    case Foreign(mem, len) => if len == 0 then [] else mem[..len]
  }

  /** `From<&str> for GString`: copy into a GLib allocation of len + 1 bytes. */
  function FromStr(s: seq<byte>): (g: GStringValue)
    ensures g.Foreign? && g.len == |s| && |g.mem| == |s| + 1 && g.mem[|s|] == 0
    ensures GStringAsStr(g) == s
  {
    Foreign(s + [0], |s|)
  }

  /** `From<String> for GString`: moves the bytes, with no check. */
  function FromString(s: seq<byte>): (g: GStringValue)
    ensures GStringAsStr(g) == s
  {
    Native(s)
  }

  /** `From<GString> for String`. */
  function IntoString(g: GStringValue): (s: seq<byte>)
    ensures s == GStringAsStr(g)
  {
    match g
    case Foreign(mem, len) => if len == 0 then [] else mem[..len]
    case Native(c) => c
  }

  lemma StrRoundTrip(s: seq<byte>)
    ensures IntoString(FromStr(s)) == s
    ensures IntoString(FromString(s)) == s
  {
  }

  /**
   * `From<Vec<u8>> for GString`: `CString::new(s).expect(..)` panics on a
   * NUL byte, then `From<CString>` asserts the bytes are UTF-8. `None`
   * stands for the panic.
   */
  function FromVec(s: seq<byte>): (g: Option<GStringValue>)
    ensures g.Some? <==> 0 !in s && ValidUtf8(s)
    ensures g.Some? ==> GStringAsStr(g.value) == s
  {
    if 0 in s then None
    else if !ValidUtf8(s) then None
    else Some(Native(s))
  }

  /** `GString::as_gstr`. */
  function AsGStr(g: GStringValue): (b: seq<byte>)
    requires g.Foreign? ==> g.mem[g.len] == 0
    ensures b == GStringAsStr(g) + [0]
  {
    match g
    case Native(c) => c + [0]
    case Foreign(mem, len) => if len == 0 then [0] else mem[..len + 1]
  }

  /** `Clone for GString`: `self.as_str().into()`. */
  function Clone(g: GStringValue): (c: GStringValue)
    ensures GStringAsStr(c) == GStringAsStr(g)
    ensures c.Foreign?
  {
    FromStr(GStringAsStr(g))
  }

  /**
   * `FromGlibContainer::from_glib_none_num`: the empty string for a null
   * pointer or num 0, otherwise a copy of the first num bytes, which
   * `from_utf8(..).unwrap()` requires to be UTF-8 (`None`: the panic).
   */
  function FromGlibNoneNum(isNull: bool, mem: seq<byte>, num: nat): (g: Option<GStringValue>)
    requires !isNull ==> num <= |mem|
    ensures num == 0 || isNull ==> g == Some(FromStr([]))
    ensures num > 0 && !isNull ==> (g.Some? <==> ValidUtf8(mem[..num]))
    ensures g.Some? && num > 0 && !isNull ==> GStringAsStr(g.value) == mem[..num]
    ensures g.Some? ==> g.value.Foreign?
  {
    if num == 0 || isNull then Some(FromStr([]))
    else if ValidUtf8(mem[..num]) then Some(FromStr(mem[..num]))
    else None
  }

  lemma FromGlibNoneNumCases()
    ensures FromGlibNoneNum(true, [], 0) == Some(FromStr([]))
    ensures FromGlibNoneNum(false, [104, 101, 108, 108, 111, 95, 119], 5).Some?
    ensures GStringAsStr(FromGlibNoneNum(false, [104, 101, 108, 108, 111, 95, 119], 5).value) == [104, 101, 108, 108, 111]
  {
    var mem: seq<byte> := [104, 101, 108, 108, 111, 95, 119];
    AsciiIsUtf8(mem[..5]);
  }

  /** Lexicographic byte order, as `str::cmp`. */
  function Compare(a: seq<byte>, b: seq<byte>): (o: Translate.Ordering)
  {
    if a == [] && b == [] then Translate.Equal
    else if a == [] then Translate.Less
    else if b == [] then Translate.Greater
    else if a[0] < b[0] then Translate.Less
    else if a[0] > b[0] then Translate.Greater
    else Compare(a[1..], b[1..])
  }

  lemma {:induction false} CompareEqualIffSame(a: seq<byte>, b: seq<byte>)
    ensures Compare(a, b) == Translate.Equal <==> a == b
  {
    if a != [] && b != [] && a[0] == b[0] {
      CompareEqualIffSame(a[1..], b[1..]);
      if a[1..] == b[1..] { assert a == [a[0]] + a[1..]; assert b == [b[0]] + b[1..]; }
    }
  }

  lemma {:induction false} CompareAntisymmetric(a: seq<byte>, b: seq<byte>)
    ensures Compare(a, b) == Translate.Less <==> Compare(b, a) == Translate.Greater
  {
    if a != [] && b != [] && a[0] == b[0] {
      CompareAntisymmetric(a[1..], b[1..]);
    }
  }

  /** `PartialEq for GString` and its mixed forms compare `as_str` only. */
  predicate GStringEq(a: GStringValue, b: GStringValue)
  {
    GStringAsStr(a) == GStringAsStr(b)
  }

  /** `Ord for GString`. */
  function GStringCmp(a: GStringValue, b: GStringValue): Translate.Ordering
  {
    Compare(GStringAsStr(a), GStringAsStr(b))
  }

  /** `Hash for GString` feeds `as_str` to whatever hasher `h` is. */
  function GStringHash(g: GStringValue, h: seq<byte> -> int): int
  {
    h(GStringAsStr(g))
  }

  /**
   * Equality, order and hash agree and see only the text: a native and a
   * foreign `GString` with the same text are equal, equal strings hash alike
   * under every hasher, and `cmp` says Equal exactly for equal strings.
   */
  lemma EqOrdHashConsistent(a: GStringValue, b: GStringValue, h: seq<byte> -> int)
    ensures GStringCmp(a, b) == Translate.Equal <==> GStringEq(a, b)
    ensures GStringEq(a, b) ==> GStringHash(a, h) == GStringHash(b, h)
  {
    CompareEqualIffSame(GStringAsStr(a), GStringAsStr(b));
  }

  lemma NativeEqualsForeign(s: seq<byte>)
    ensures GStringEq(FromString(s), FromStr(s))
  {
  }
}
