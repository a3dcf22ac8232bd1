/**
 * glib-macros/src/lib.rs, `cstr_bytes!`: the macro takes one string
 * literal and expands to a byte-string literal holding the literal's UTF-8
 * bytes followed by a single NUL, the layout a C string needs.
 */
module CstrMacro {
  import opened Wrappers
  import opened Text

  /** The input tokens; only whether a token is a string literal (and its bytes) matters. */
  datatype Token = StrLit(bytes: seq<byte>) | OtherToken(text: string)

  /**
   * Where a compile error points: at the string literal, at the macro
   * invocation as a whole, or at the input token with this index.
   */
  datatype Span = AtLiteral | AtInput | AtToken(index: nat)

  datatype CompileError = CompileError(span: Span, message: string)

  /** The first NUL byte of `s`, if any. */
  function FirstNul(s: seq<byte>): (r: Option<nat>)
    ensures r.Some? ==> r.value < |s| && s[r.value] == 0 && 0 !in s[..r.value]
    ensures r.None? ==> 0 !in s
  {
    if |s| == 0 then None
    else if s[0] == 0 then Some(0)
    else match FirstNul(s[1..])
      case None => None
      case Some(i) => assert s[..i + 1] == [s[0]] + s[1..][..i]; Some(i + 1)
  }

  /**
   * `CString::new(bytes).into_bytes_with_nul()`: the bytes and a final NUL,
   * or the error naming the position of the first interior NUL.
   */
  function CStringWithNul(bytes: seq<byte>): (r: Result<seq<byte>, nat>)
    ensures r.Ok? <==> 0 !in bytes
    ensures r.Ok? ==> r.value == bytes + [0]
    ensures r.Err? ==> r.error < |bytes| && bytes[r.error] == 0 && 0 !in bytes[..r.error]
  {
    match FirstNul(bytes)
    case None => Ok(bytes + [0])
    case Some(i) => Err(i)
  }

  /** The message of `CString::new`'s error for a NUL at `pos`. */
  function NulMessage(pos: nat): string
  {
    "nul byte found in provided data at position: " + NatToString(pos)
  }

  /**
   * `cstr_bytes!(tokens)`: the byte string, or the compile error it expands
   * to instead. Tokens left after the literal are reported by the parser
   * only once the closure has returned, so a NUL in the literal is reported
   * before them.
   */
  function CstrBytes(tokens: seq<Token>): (r: Result<seq<byte>, CompileError>)
    ensures r.Ok? <==> |tokens| == 1 && tokens[0].StrLit? && 0 !in tokens[0].bytes
    ensures r.Ok? ==> r.value == tokens[0].bytes + [0]
    ensures |tokens| == 0 ==> r == Err(CompileError(AtInput, "unexpected end of input, expected string literal"))
    ensures |tokens| >= 1 && !tokens[0].StrLit? ==> r == Err(CompileError(AtToken(0), "expected string literal"))
    ensures |tokens| >= 1 && tokens[0].StrLit? ==>
      forall i :: 0 <= i < |tokens[0].bytes| && tokens[0].bytes[i] == 0 && 0 !in tokens[0].bytes[..i] ==>
        r == Err(CompileError(AtLiteral, NulMessage(i)))
    ensures |tokens| > 1 && tokens[0].StrLit? && 0 !in tokens[0].bytes ==> r == Err(CompileError(AtToken(1), "unexpected token"))
  {
    if |tokens| == 0 then Err(CompileError(AtInput, "unexpected end of input, expected string literal"))
    else if !tokens[0].StrLit? then Err(CompileError(AtToken(0), "expected string literal"))
    else
      match CStringWithNul(tokens[0].bytes)
      case Err(pos) => Err(CompileError(AtLiteral, NulMessage(pos)))
      case Ok(bytes) =>
        if |tokens| > 1 then Err(CompileError(AtToken(1), "unexpected token")) else Ok(bytes)
  }

  /** A NUL in the literal is reported even when tokens follow it. */
  lemma NulReportedBeforeLeftover(literal: seq<byte>, rest: seq<Token>)
    requires 0 in literal
    ensures CstrBytes([StrLit(literal)] + rest).Err?
    ensures CstrBytes([StrLit(literal)] + rest).error.span == AtLiteral
  {
    var tokens := [StrLit(literal)] + rest;
    assert tokens[0] == StrLit(literal);
  }

  /**
   * `CStr::from_bytes_with_nul`, the reading C code gives the expansion:
   * everything before a NUL that is the last byte and the only one.
   */
  function FromBytesWithNul(s: seq<byte>): (r: Option<seq<byte>>)
    ensures r.Some? ==> s == r.value + [0] && 0 !in r.value
  {
    if |s| > 0 && s[|s| - 1] == 0 && 0 !in s[..|s| - 1] then
      assert s == s[..|s| - 1] + [0];
      Some(s[..|s| - 1])
    else None
  }

  /** Reading the expansion back as a C string gives the literal's bytes. */
  lemma CstrRoundTrip(literal: seq<byte>)
    requires CstrBytes([StrLit(literal)]).Ok?
    ensures FromBytesWithNul(CstrBytes([StrLit(literal)]).value) == Some(literal)
  {
    var s := literal + [0];
    assert s[..|s| - 1] == literal;
  }

  /** The expansion's only NUL is the last byte: a C reader sees the whole literal. */
  lemma CstrNulOnlyAtEnd(literal: seq<byte>)
    requires CstrBytes([StrLit(literal)]).Ok?
    ensures FirstNul(CstrBytes([StrLit(literal)]).value) == Some(|literal|)
  {
    var s := literal + [0];
    assert s[..|literal|] == literal;
  }
}
