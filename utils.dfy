/** Canonical property/signal names (glib/src/utils.rs). */
module Utils {
  import opened Text

  const DIGIT_0: byte := 0x30
  const DIGIT_9: byte := 0x39
  const DASH: byte := 0x2D
  const UNDERSCORE: byte := 0x5F
  const UPPER_A: byte := 0x41
  const UPPER_Z: byte := 0x5A
  const LOWER_A: byte := 0x61
  const LOWER_Z: byte := 0x7A

  predicate IsLetterByte(c: byte) { UPPER_A <= c <= UPPER_Z || LOWER_A <= c <= LOWER_Z }
  predicate IsDigitByte(c: byte) { DIGIT_0 <= c <= DIGIT_9 }

  /** The condition `is_canonical_pspec_name` asks of the byte at index `i`. */
  predicate AllowedAt(i: nat, c: byte)
  {
    (i != 0 && (IsDigitByte(c) || c == DASH)) || IsLetterByte(c)
  }

  /** `is_canonical_pspec_name`: every (index, byte) pair passes. */
  predicate IsCanonicalPspecName(name: seq<byte>)
  {
    forall i :: 0 <= i < |name| ==> AllowedAt(i, name[i])
  }

  /** The same rule read position by position: a letter first, then letters, digits and dashes. */
  lemma CanonicalShape(name: seq<byte>)
    ensures IsCanonicalPspecName(name) <==>
      (name == [] ||
       (IsLetterByte(name[0]) &&
        forall i :: 1 <= i < |name| ==> IsLetterByte(name[i]) || IsDigitByte(name[i]) || name[i] == DASH))
  {
    if name != [] && IsCanonicalPspecName(name) {
      assert AllowedAt(0, name[0]);
    }
  }

  /** The empty name passes because the all-check is vacuous. */
  lemma EmptyIsCanonical()
    ensures IsCanonicalPspecName([])
  {
  }

  /** An underscore or a non-ASCII byte anywhere makes a name non-canonical. */
  lemma UnderscoreAndNonAsciiRejected(name: seq<byte>, i: nat)
    requires i < |name| && (name[i] == UNDERSCORE || name[i] >= 0x80)
    ensures !IsCanonicalPspecName(name)
  {
    assert !AllowedAt(i, name[i]);
  }

  /** Every prefix of a canonical name is canonical. */
  lemma CanonicalPrefixClosed(name: seq<byte>, n: nat)
    requires n <= |name| && IsCanonicalPspecName(name)
    ensures IsCanonicalPspecName(name[..n])
  {
    assert forall i :: 0 <= i < n ==> name[..n][i] == name[i];
  }

  lemma CanonicalExamples()
    ensures IsCanonicalPspecName([0x61, 0x2D, 0x31])      // "a-1"
    ensures !IsCanonicalPspecName([0x31, 0x61])           // "1a"
    ensures !IsCanonicalPspecName([0x2D, 0x61])           // "-a"
    ensures !IsCanonicalPspecName([0x61, 0x5F, 0x62])     // "a_b"
  {
    var ok: seq<byte> := [0x61, 0x2D, 0x31];
    assert AllowedAt(0, ok[0]) && AllowedAt(1, ok[1]) && AllowedAt(2, ok[2]);
    var digitFirst: seq<byte> := [0x31, 0x61];
    assert !AllowedAt(0, digitFirst[0]);
    var dashFirst: seq<byte> := [0x2D, 0x61];
    assert !AllowedAt(0, dashFirst[0]);
    var underscore: seq<byte> := [0x61, 0x5F, 0x62];
    assert !AllowedAt(1, underscore[1]);
  }
}
