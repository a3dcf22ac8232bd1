/**
 * The scheme every generated C-enum binding of cairo and gdk-pixbuf
 * follows: each named variant converts to its own C code, a code that no
 * variant has becomes `__Unknown(code)`, and `__Unknown(v)` converts back
 * to `v`. A binding is a `Table` of its variant names and their codes, in
 * declaration order.
 */
module CodeTable {
  import opened Wrappers

  datatype Table = Table(typeName: string, names: seq<string>, codes: seq<int>)

  /** Every variant has a code and no two variants share one. */
  predicate WellFormed(t: Table)
  {
    |t.names| == |t.codes| &&
    forall i, j :: 0 <= i < j < |t.codes| ==> t.codes[i] != t.codes[j]
  }

  /** Distinctness checked one element at a time, which a literal table can be run through. */
  predicate Distinct(codes: seq<int>)
  {
    |codes| == 0 || (codes[0] !in codes[1..] && Distinct(codes[1..]))
  }

  lemma {:induction false} DistinctPairwise(codes: seq<int>)
    requires Distinct(codes)
    ensures forall i, j :: 0 <= i < j < |codes| ==> codes[i] != codes[j]
  {
    if |codes| > 0 {
      DistinctPairwise(codes[1..]);
      forall i, j | 0 <= i < j < |codes|
        ensures codes[i] != codes[j]
      {
        if i > 0 {
          assert codes[i] == codes[1..][i - 1] && codes[j] == codes[1..][j - 1];
        } else {
          assert codes[j] in codes[1..];
        }
      }
    }
  }

  /** The consecutive codes `lo, lo + 1, …, lo + n - 1` of a C enum without explicit values. */
  function Range(lo: int, n: nat): (r: seq<int>)
    ensures |r| == n
    ensures forall i :: 0 <= i < n ==> r[i] == lo + i
  {
    seq(n, i => lo + i)
  }

  /**
   * A table whose codes are some explicit codes around a run of consecutive
   * ones (`before + [lo, lo + n) + after`) is well formed when the explicit
   * codes are distinct and lie outside the run.
   */
  lemma RangeWellFormed(t: Table, before: seq<int>, lo: int, n: nat, after: seq<int>)
    requires t.codes == before + Range(lo, n) + after && |t.names| == |t.codes|
    requires Distinct(before) && Distinct(after)
    requires forall c :: c in before ==> c !in after && (c < lo || c >= lo + n)
    requires forall c :: c in after ==> c < lo || c >= lo + n
    ensures WellFormed(t)
  {
    DistinctPairwise(before);
    DistinctPairwise(after);
    var b := |before|;
    forall k | 0 <= k < |t.codes|
      ensures k < b ==> t.codes[k] == before[k]
      ensures b <= k < b + n ==> t.codes[k] == lo + (k - b)
      ensures b + n <= k ==> t.codes[k] == after[k - b - n]
    {
    }
    forall i, j | 0 <= i < j < |t.codes|
      ensures t.codes[i] != t.codes[j]
    {
      if j < b {
      } else if j < b + n {
        if i < b {
          assert t.codes[i] in before;
        }
      } else if i < b {
        assert t.codes[i] in before && t.codes[j] in after;
      } else if i < b + n {
        assert t.codes[j] in after;
      }
    }
  }

  /** A value of a binding: the `index`-th named variant, or `__Unknown(code)`. */
  datatype Variant = Named(index: nat) | Unknown(code: int)

  predicate IsVariantOf(t: Table, e: Variant)
  {
    e.Named? ==> e.index < |t.codes|
  }

  /** The first variant with code `v`, if any. */
  function IndexOf(codes: seq<int>, v: int): (r: Option<nat>)
    ensures r.None? <==> v !in codes
    ensures r.Some? ==> r.value < |codes| && codes[r.value] == v
    ensures r.Some? ==> forall k :: 0 <= k < r.value ==> codes[k] != v
  {
    if codes == [] then None
    else if codes[0] == v then Some(0)
    else match IndexOf(codes[1..], v)
      case None => None
      case Some(k) => Some(k + 1)
  }

  /** `From<Enum> for c_type` / `IntoGlib`. */
  function ToCode(t: Table, e: Variant): int
    requires IsVariantOf(t, e)
  {
    match e
    case Named(i) => t.codes[i]
    case Unknown(v) => v
  }

  /** `From<c_type> for Enum` / `FromGlib`: the variant with that code, else `__Unknown`. */
  function FromCode(t: Table, v: int): (e: Variant)
    ensures IsVariantOf(t, e)
    ensures e.Named? ==> t.codes[e.index] == v
    ensures e.Unknown? <==> v !in t.codes
    ensures e.Unknown? ==> e.code == v
  {
    match IndexOf(t.codes, v)
    case Some(i) => Named(i)
    case None => Unknown(v)
  }

  /** code → enum → code is the identity, for every code. */
  lemma CodeRoundTrip(t: Table, v: int)
    ensures ToCode(t, FromCode(t, v)) == v
  {
  }

  /**
   * enum → code → enum is the identity for named variants and for
   * `__Unknown(v)` whose `v` no named variant has.
   */
  lemma VariantRoundTrip(t: Table, e: Variant)
    requires WellFormed(t) && IsVariantOf(t, e)
    requires e.Unknown? ==> e.code !in t.codes
    ensures FromCode(t, ToCode(t, e)) == e
  {
    if e.Named? {
      var r := IndexOf(t.codes, t.codes[e.index]);
      assert r.Some?;
    }
  }

  /** `__Unknown(v)` with a known `v` is not preserved: it comes back as the named variant. */
  lemma UnknownOfKnownCodeCollapses(t: Table, i: nat)
    requires WellFormed(t) && i < |t.codes|
    ensures FromCode(t, ToCode(t, Unknown(t.codes[i]))) == Named(i)
    ensures Unknown(t.codes[i]) != Named(i)
  {
    VariantRoundTrip(t, Named(i));
  }

  /** Two variants of a well-formed table have the same code only if they are the same variant. */
  lemma ToCodeInjective(t: Table, a: Variant, b: Variant)
    requires WellFormed(t) && IsVariantOf(t, a) && IsVariantOf(t, b)
    requires a.Unknown? ==> a.code !in t.codes
    requires b.Unknown? ==> b.code !in t.codes
    requires ToCode(t, a) == ToCode(t, b)
    ensures a == b
  {
    VariantRoundTrip(t, a);
    VariantRoundTrip(t, b);
  }

  /** The generated `Display`: `"TypeName::Variant"`, `"TypeName::Unknown"` for unknown codes. */
  function Display(t: Table, e: Variant): (s: string)
    requires IsVariantOf(t, e) && |t.names| == |t.codes|
    ensures e.Named? ==> s == t.typeName + "::" + t.names[e.index]
    ensures e.Unknown? ==> s == t.typeName + "::Unknown"
  {
    t.typeName + "::" + match e case Named(i) => t.names[i] case Unknown(_) => "Unknown"
  }
}
