/**
 * glib-macros/src/clone.rs, `clone_inner` and the parsers it calls after
 * the captures: the loop over the macro's input up to `=>`, the optional
 * `@default-return`/`@default-panic` (`parse_return_kind`, `return_kind`),
 * and the closure or async block that follows (`check_before_closure`,
 * `check_async_syntax`, `check_move_after_async`, `closure`). Each parser
 * is a method over the shared token cursor, proved against a function of
 * the tokens and the position it starts at. The tokens `build_closure`
 * emits are not modelled: the result is what it is given.
 */
module CloneInner {
  import opened Wrappers
  import opened CloneMacro

  /** How the macro fails: a `compile_error!` carrying a message, or a panic of the macro itself. */
  datatype Failure = CompileError(msg: string) | Panic(msg: string)

  /** `TokenCheck`: the text of the tokens matched so far, and what came instead. */
  datatype TokenCheck = UnexpectedToken(tokens: string, unexpected: string) | UnexpectedEnd(tokens: string)

  /** `BlockKind`: what follows the captures, with the closure's parameter tokens. */
  datatype BlockKind =
    | Closure(params: seq<Token>)
    | ClosureWrappingAsync(params: seq<Token>)
    | AsyncClosure(params: seq<Token>)
    | AsyncBlock

  /** What `build_closure` is given: the captures, the fail action, the block kind and the body tokens. */
  datatype Parsed = Parsed(elements: seq<ElemToClone>, returnKind: Option<WrapperKind>, kind: BlockKind, body: seq<Token>)

  const NOTHING_TO_CLONE := "If you have nothing to clone, no need to use this macro!"
  const MOVE_NEEDED := "Closure needs to be \"moved\" so please add `move` before closure"
  const NO_CLOSURE := "Missing `move` and closure declaration"

  /** The message for a capture written without `@strong`/`@weak`/…. */
  function UnexpectedIdent(i: string): string {
    "Unexpected ident `" + i + "`: you need to specify if this is a weak or a strong clone."
  }

  /** A method's `Result<(), E>`, with the cursor at `pos`, is the answer `s` of its specification. */
  predicate Steps<E(==)>(r: Result<(), E>, s: Result<nat, E>, pos: nat) {
    match r
    case Ok(_) => s == Ok(pos)
    case Err(e) => s == Err(e)
  }

  // ----------------------------------------------------------- check_tokens

  /**
   * `check_tokens` from token `j`: each expected token must come next;
   * `acc` is the text of those already matched. On success, the position
   * after them.
   */
  function CheckAt(ts: seq<Token>, j: nat, expected: seq<Token>, acc: string): (r: Result<nat, TokenCheck>)
    requires j <= |ts|
    ensures r.Ok? ==> j <= r.value <= |ts|
    decreases |expected|
  {
    if expected == [] then Ok(j)
    else if j == |ts| then Err(UnexpectedEnd(acc))
    else if ts[j] != expected[0] then Err(UnexpectedToken(acc, Piece(ts[j])))
    else CheckAt(ts, j + 1, expected[1..], acc + Piece(expected[0]))
  }

  /** The check passes exactly when the input continues with the expected tokens, and then takes them. */
  lemma {:induction false} CheckAtMatches(ts: seq<Token>, j: nat, expected: seq<Token>, acc: string)
    requires j <= |ts|
    ensures CheckAt(ts, j, expected, acc).Ok? <==> j + |expected| <= |ts| && ts[j..j + |expected|] == expected
    ensures CheckAt(ts, j, expected, acc).Ok? ==> CheckAt(ts, j, expected, acc).value == j + |expected|
    decreases |expected|
  {
    if expected != [] && j < |ts| {
      if ts[j] == expected[0] {
        CheckAtMatches(ts, j + 1, expected[1..], acc + Piece(expected[0]));
        if j + |expected| <= |ts| {
          assert ts[j..j + |expected|] == [ts[j]] + ts[j + 1..j + |expected|];
          assert expected == [expected[0]] + expected[1..];
        }
      } else if j + |expected| <= |ts| {
        assert ts[j..j + |expected|][0] != expected[0];
      }
    }
  }

  /** `check_tokens`, with the cursor: the matched tokens are taken. */
  method CheckTokens(c: TokenCursor, expected: seq<Token>) returns (r: Result<(), TokenCheck>)
    requires c.Valid()
    modifies c
    ensures c.Valid()
    ensures Steps(r, CheckAt(c.tokens, old(c.pos), expected, ""), c.pos)
  {
    ghost var ts, pos0 := c.tokens, c.pos;
    var tokens := "";
    var i := 0;
    while i < |expected|
      invariant c.Valid() && c.tokens == ts && i <= |expected|
      invariant CheckAt(ts, pos0, expected, "") == CheckAt(ts, c.pos, expected[i..], tokens)
    {
      var next := c.Peek();
      if next.None? {
        return Err(UnexpectedEnd(tokens));
      }
      if expected[i] != next.value {
        return Err(UnexpectedToken(tokens, Piece(next.value)));
      }
      assert expected[i..][1..] == expected[i + 1..];
      tokens := tokens + Piece(expected[i]);
      var _ := c.Next();
      i := i + 1;
    }
    assert expected[i..] == [];
    r := Ok(());
  }

  // ------------------------------------------------- return_kind and friends

  /** `WrapperKind::to_str`. */
  function WrapperText(w: WrapperKind): string {
    match w
    case DefaultPanic => "@default-panic"
    case DefaultReturn(v) => "@default-return " + v
  }

  /** `WrapperKind::keyword`. */
  function WrapperKeyword(w: WrapperKind): string {
    match w
    case DefaultPanic => "default-panic"
    case DefaultReturn(_) => "default-return"
  }

  const DEFAULT_DASH: seq<Token> := [Ident("default"), Punct('-')]

  /**
   * What `return_kind` answers at token `j`: `default` `-` then `panic`,
   * or `return` and the value `expr` reads. Another word after `default-`
   * is a panic of the macro.
   */
  function ReturnKindAt(ts: seq<Token>, j: nat): (r: Result<(WrapperKind, nat), Failure>)
    requires j <= |ts|
    ensures r.Ok? ==> j + 2 < r.value.1 <= |ts|
  {
    match CheckAt(ts, j, DEFAULT_DASH, "")
    case Err(UnexpectedToken(tokens, u)) => Err(CompileError("Unknown keyword `" + tokens + u + "`"))
    case Err(UnexpectedEnd(tokens)) => Err(CompileError("Unexpected end after tokens `" + tokens + "`"))
    case Ok(k) =>
      CheckAtMatches(ts, j, DEFAULT_DASH, "");
      AfterDefaultAt(ts, k)
  }

  /** `return_kind` after `default-` (at token `k`): `panic`, or `return` and a value. */
  function AfterDefaultAt(ts: seq<Token>, k: nat): (r: Result<(WrapperKind, nat), Failure>)
    requires k <= |ts|
    ensures r.Ok? ==> k < r.value.1 <= |ts|
  {
    if k == |ts| then Err(CompileError("Unexpected end after `@default-`"))
    else match ts[k]
      case Ident(i) =>
        if i == "panic" then Ok((DefaultPanic, k + 1))
        else if i != "return" then Err(Panic("Unknown keyword `@default-" + i + "`"))
        else (match ExprAt(ts, k + 1)
          case Err(e) => Err(CompileError(e))
          case Ok((v, p)) => Ok((DefaultReturn(v), p)))
      case x => Err(CompileError("Unknown token `" + Piece(x) + "` after `@default-`"))
  }

  /** `return_kind`, with the cursor. */
  method ReturnKind(c: TokenCursor) returns (r: Result<WrapperKind, Failure>)
    requires c.Valid()
    modifies c
    ensures c.Valid()
    ensures Yields(r, ReturnKindAt(c.tokens, old(c.pos)), c.pos)
  {
    var check := CheckTokens(c, DEFAULT_DASH);
    if check.Err? {
      match check.error
      case UnexpectedToken(tokens, u) => return Err(CompileError("Unknown keyword `" + tokens + u + "`"));
      case UnexpectedEnd(tokens) => return Err(CompileError("Unexpected end after tokens `" + tokens + "`"));
    }
    var next := c.Next();
    if next.None? {
      return Err(CompileError("Unexpected end after `@default-`"));
    }
    match next.value {
      case Ident(i) =>
        if i == "panic" {
          return Ok(DefaultPanic);
        }
        if i != "return" {
          return Err(Panic("Unknown keyword `@default-" + i + "`"));
        }
      case x =>
        return Err(CompileError("Unknown token `" + Piece(x) + "` after `@default-`"));
    }
    var e := Expr(c);
    if e.Err? {
      return Err(CompileError(e.error));
    }
    r := Ok(DefaultReturn(e.value));
  }

  /**
   * What `parse_return_kind` answers at token `j`: nothing unless an `@`
   * comes next, and otherwise the fail action, which a `,` must follow.
   */
  function ParseReturnKindAt(ts: seq<Token>, j: nat): (r: Result<(Option<WrapperKind>, nat), Failure>)
    requires j <= |ts|
    ensures r.Ok? ==> j <= r.value.1 <= |ts|
  {
    if j == |ts| then Err(CompileError("Unexpected end 2"))
    else if ts[j] != Punct('@') then Ok((None, j))
    else match ReturnKindAt(ts, j + 1)
      case Err(e) => Err(e)
      case Ok((w, k)) =>
        match CheckAt(ts, k, [Punct(',')], "")
        case Err(UnexpectedToken(_, u)) => Err(CompileError("Expected `,` after `" + WrapperText(w) + "`, found `" + u + "`"))
        case Err(UnexpectedEnd(tokens)) => Err(CompileError("Expected `,` after `" + WrapperText(w) + tokens + "`"))
        case Ok(p) => Ok((Some(w), p))
  }

  /**
   * A fail action is read exactly from `@` `default` `-` on, and ends with
   * the `,` after it; without `@` nothing is taken.
   */
  lemma ParseReturnKindShape(ts: seq<Token>, j: nat)
    requires j <= |ts| && ParseReturnKindAt(ts, j).Ok?
    ensures var (w, p) := ParseReturnKindAt(ts, j).value;
      (w.None? <==> ts[j] != Punct('@')) &&
      (w.None? ==> p == j) &&
      (w.Some? ==> j + 4 < p && ts[j..j + 3] == [Punct('@'), Ident("default"), Punct('-')] && ts[p - 1] == Punct(','))
  {
    if ts[j] == Punct('@') {
      CheckAtMatches(ts, j + 1, DEFAULT_DASH, "");
      var k := ReturnKindAt(ts, j + 1).value.1;
      CheckAtMatches(ts, k, [Punct(',')], "");
      assert ts[j + 1..j + 3] == DEFAULT_DASH;
      assert ts[j..j + 3] == [ts[j]] + ts[j + 1..j + 3];
      assert ts[k..k + 1][0] == ts[k];
    }
  }

  /** `parse_return_kind`, with the cursor. */
  method ParseReturnKind(c: TokenCursor) returns (r: Result<Option<WrapperKind>, Failure>)
    requires c.Valid()
    modifies c
    ensures c.Valid()
    ensures Yields(r, ParseReturnKindAt(c.tokens, old(c.pos)), c.pos)
  {
    var next := c.Peek();
    if next.None? {
      return Err(CompileError("Unexpected end 2"));
    }
    if next.value != Punct('@') {
      return Ok(None);
    }
    var _ := c.Next();
    var ret := ReturnKind(c);
    if ret.Err? {
      return Err(ret.error);
    }
    var check := CheckTokens(c, [Punct(',')]);
    if check.Err? {
      match check.error
      case UnexpectedToken(_, u) =>
        return Err(CompileError("Expected `,` after `" + WrapperText(ret.value) + "`, found `" + u + "`"));
      case UnexpectedEnd(tokens) =>
        return Err(CompileError("Expected `,` after `" + WrapperText(ret.value) + tokens + "`"));
    }
    r := Ok(Some(ret.value));
  }

  // ------------------------------------------------------------- closure

  /**
   * What `closure` answers at token `j`: the tokens up to the next `|`,
   * which is taken, or an error when no `|` follows.
   */
  function ClosureAt(ts: seq<Token>, j: nat): (r: Result<(seq<Token>, nat), Failure>)
    requires j <= |ts|
    ensures r.Ok? ==> j < r.value.1 <= |ts| && r.value.0 == ts[j..r.value.1 - 1] && ts[r.value.1 - 1] == Punct('|')
    ensures r.Ok? ==> Punct('|') !in r.value.0
    ensures r.Err? <==> Punct('|') !in ts[j..]
    ensures r.Err? ==> r.error == CompileError("Unexpected end 3")
    decreases |ts| - j
  {
    if j == |ts| then Err(CompileError("Unexpected end 3"))
    else if ts[j] == Punct('|') then Ok(([], j + 1))
    else
      assert ts[j..] == [ts[j]] + ts[j + 1..];
      match ClosureAt(ts, j + 1)
      case Err(e) => Err(e)
      case Ok((ps, k)) =>
        assert ts[j..k - 1] == [ts[j]] + ts[j + 1..k - 1];
        Ok(([ts[j]] + ps, k))
  }

  /** `closure` (`get_closure`), with the cursor: collects the parameter tokens up to `|`. */
  method GetClosure(c: TokenCursor) returns (r: Result<seq<Token>, Failure>)
    requires c.Valid()
    modifies c
    ensures c.Valid()
    ensures Yields(r, ClosureAt(c.tokens, old(c.pos)), c.pos)
  {
    ghost var ts, pos0 := c.tokens, c.pos;
    var ret: seq<Token> := [];
    while true
      invariant c.Valid() && c.tokens == ts && pos0 <= c.pos
      invariant ret == ts[pos0..c.pos] && Punct('|') !in ret
      decreases |ts| - c.pos
    {
      var next := c.Next();
      if next.None? {
        assert ts[pos0..] == ret;
        return Err(CompileError("Unexpected end 3"));
      }
      if next.value == Punct('|') {
        assert ts[pos0..c.pos] == ret + [Punct('|')];
        break;
      }
      ret := ret + [next.value];
    }
    r := Ok(ret);
  }

  // ----------------------------------------------- check_before_closure

  /** What `check_move_after_async` answers at token `j`: `move` must come next. */
  function MoveAfterAsyncAt(ts: seq<Token>, j: nat): (r: Result<nat, Failure>)
    requires j <= |ts|
    ensures r.Ok? <==> j < |ts| && ts[j] == Ident("move")
    ensures r.Ok? ==> r.value == j + 1
  {
    if j == |ts| then Err(CompileError("Expected `move` after `async`"))
    else match ts[j]
      case Ident(i) =>
        if i == "move" then Ok(j + 1) else Err(CompileError("Expected `move` after `async`, found `" + i + "`"))
      case Punct(p) => Err(CompileError("Expected `move` after `async`, found `" + [p] + "`"))
      case Group(d, _) => Err(CompileError("Expected `move` after `async`, found `" + Open(d) + "`"))
      case Literal(_) => Err(CompileError("Expected `move` after `async`"))
  }

  /** `check_move_after_async`, with the cursor. */
  method CheckMoveAfterAsync(c: TokenCursor) returns (r: Result<(), Failure>)
    requires c.Valid()
    modifies c
    ensures c.Valid()
    ensures Steps(r, MoveAfterAsyncAt(c.tokens, old(c.pos)), c.pos)
  {
    var next := c.Next();
    if next.None? {
      return Err(CompileError("Expected `move` after `async`"));
    }
    match next.value
    case Ident(i) =>
      if i == "move" {
        return Ok(());
      }
      return Err(CompileError("Expected `move` after `async`, found `" + i + "`"));
    case Punct(p) =>
      return Err(CompileError("Expected `move` after `async`, found `" + [p] + "`"));
    case Group(d, _) =>
      return Err(CompileError("Expected `move` after `async`, found `" + Open(d) + "`"));
    case Literal(_) =>
      return Err(CompileError("Expected `move` after `async`"));
  }

  /**
   * What `check_async_syntax` answers at token `j` (after `async`): `move`,
   * then a closure's parameters between `|`s or a `{ }` block.
   */
  function AsyncSyntaxAt(ts: seq<Token>, j: nat): (r: Result<(BlockKind, nat), Failure>)
    requires j <= |ts|
    ensures r.Ok? ==> j < r.value.1 <= |ts|
    ensures r.Ok? ==> r.value.0.AsyncClosure? || r.value.0.AsyncBlock?
  {
    match MoveAfterAsyncAt(ts, j)
    case Err(e) => Err(e)
    case Ok(k) =>
      if k == |ts| then Err(CompileError("Expected closure or block after `async move`"))
      else match ts[k]
        case Punct(p) =>
          if p == '|' then
            (match ClosureAt(ts, k + 1)
              case Err(e) => Err(e)
              case Ok((ps, q)) => Ok((AsyncClosure(ps), q)))
          else Err(CompileError("Expected closure or block after `async move`, found `" + [p] + "`"))
        case Group(d, _) =>
          if d == Brace then Ok((AsyncBlock, k))
          else Err(CompileError("Expected closure or block after `async move`, found `" + Open(d) + "`"))
        case _ => Err(CompileError("Expected closure or block after `async move`"))
  }

  /** `check_async_syntax`, with the cursor. */
  method CheckAsyncSyntax(c: TokenCursor) returns (r: Result<BlockKind, Failure>)
    requires c.Valid()
    modifies c
    ensures c.Valid()
    ensures Yields(r, AsyncSyntaxAt(c.tokens, old(c.pos)), c.pos)
  {
    var moved := CheckMoveAfterAsync(c);
    if moved.Err? {
      return Err(moved.error);
    }
    var next := c.Peek();
    if next.None? {
      return Err(CompileError("Expected closure or block after `async move`"));
    }
    match next.value
    case Punct(p) =>
      if p == '|' {
        var _ := c.Next();
        var closure := GetClosure(c);
        if closure.Err? {
          return Err(closure.error);
        }
        return Ok(AsyncClosure(closure.value));
      }
      return Err(CompileError("Expected closure or block after `async move`, found `" + [p] + "`"));
    case Group(d, _) =>
      if d == Brace {
        return Ok(AsyncBlock);
      }
      return Err(CompileError("Expected closure or block after `async move`, found `" + Open(d) + "`"));
    case _ =>
      return Err(CompileError("Expected closure or block after `async move`"));
  }

  /**
   * `check_before_closure` after `move` (at token `j`): a closure's
   * parameters between `|`s, optionally followed by `async move` and the
   * `{ }` block it wraps.
   */
  function AfterMoveAt(ts: seq<Token>, j: nat): (r: Result<(BlockKind, nat), Failure>)
    requires j <= |ts|
    ensures r.Ok? ==> j < r.value.1 <= |ts|
    ensures r.Ok? ==> r.value.0.Closure? || r.value.0.ClosureWrappingAsync?
  {
    if j == |ts| then Err(CompileError("Expected closure"))
    else if ts[j] != Punct('|') then Err(CompileError("Expected closure, found `" + Piece(ts[j]) + "`"))
    else match ClosureAt(ts, j + 1)
      case Err(e) => Err(e)
      case Ok((ps, q)) =>
        if q < |ts| && ts[q] == Ident("async") then
          match MoveAfterAsyncAt(ts, q + 1)
          case Err(e) => Err(e)
          case Ok(m) =>
            if m < |ts| && ts[m].Group? && ts[m].delimiter == Brace then Ok((ClosureWrappingAsync(ps), m))
            else if m < |ts| && ts[m].Punct? then
              Err(CompileError("Expected block after `| async move`, found `" + [ts[m].ch] + "`"))
            else if m < |ts| && ts[m].Group? then
              Err(CompileError("Expected block after `| async move`, found `" + Open(ts[m].delimiter) + "`"))
            else Err(CompileError("Expected block after `| async move`"))
        else Ok((Closure(ps), q))
  }

  /**
   * What `check_before_closure` answers at token `j`: `move` or `async`
   * must come first; a misplaced `default-…` and a closure without `move`
   * get their own messages.
   */
  function BeforeClosureAt(ts: seq<Token>, j: nat): (r: Result<(BlockKind, nat), Failure>)
    requires j <= |ts|
    ensures r.Ok? ==> j < r.value.1 <= |ts|
    ensures r.Ok? ==> ts[j] == Ident("move") || ts[j] == Ident("async")
  {
    if j == |ts| then Err(CompileError(NO_CLOSURE))
    else match ts[j]
      case Ident(i) =>
        if i == "move" then AfterMoveAt(ts, j + 1)
        else if i == "async" then AsyncSyntaxAt(ts, j + 1)
        else if i == "default" then
          match ReturnKindAt(ts, j)
          case Err(e) => Err(e)
          case Ok((w, _)) => Err(CompileError("Missing `@` before `" + WrapperKeyword(w) + "`"))
        else Err(CompileError(NO_CLOSURE))
      case Punct(p) => if p == '|' then Err(CompileError(MOVE_NEEDED)) else Err(CompileError(NO_CLOSURE))
      case _ => Err(CompileError(NO_CLOSURE))
  }

  /**
   * `check_before_closure`, with the cursor. A closure must be `move`;
   * `async` leads to `check_async_syntax`.
   */
  method CheckBeforeClosure(c: TokenCursor) returns (r: Result<BlockKind, Failure>)
    requires c.Valid()
    modifies c
    ensures c.Valid()
    ensures Yields(r, BeforeClosureAt(c.tokens, old(c.pos)), c.pos)
  {
    var next := c.Peek();
    var isAsync := false;
    if next.Some? && next.value == Ident("move") {
      isAsync := false;
    } else if next.Some? && next.value == Ident("async") {
      isAsync := true;
    } else if next.Some? && next.value == Ident("default") {
      var ret := ReturnKind(c);
      if ret.Err? {
        return Err(ret.error);
      }
      return Err(CompileError("Missing `@` before `" + WrapperKeyword(ret.value) + "`"));
    } else if next.Some? && next.value == Punct('|') {
      return Err(CompileError(MOVE_NEEDED));
    } else {
      return Err(CompileError(NO_CLOSURE));
    }
    var _ := c.Next();
    if isAsync {
      r := CheckAsyncSyntax(c);
      return;
    }
    r := AfterMove(c);
  }

  /** The part of `check_before_closure` after `move`, with the cursor. */
  method AfterMove(c: TokenCursor) returns (r: Result<BlockKind, Failure>)
    requires c.Valid()
    modifies c
    ensures c.Valid()
    ensures Yields(r, AfterMoveAt(c.tokens, old(c.pos)), c.pos)
  {
    var next := c.Peek();
    if next.None? {
      return Err(CompileError("Expected closure"));
    }
    if next.value != Punct('|') {
      return Err(CompileError("Expected closure, found `" + Piece(next.value) + "`"));
    }
    var _ := c.Next();
    var closure := GetClosure(c);
    if closure.Err? {
      return Err(closure.error);
    }
    next := c.Peek();
    if next.Some? && next.value == Ident("async") {
      var _ := c.Next();
      var moved := CheckMoveAfterAsync(c);
      if moved.Err? {
        return Err(moved.error);
      }
      next := c.Peek();
      if next.Some? && next.value.Group? && next.value.delimiter == Brace {
        return Ok(ClosureWrappingAsync(closure.value));
      } else if next.Some? && next.value.Punct? {
        return Err(CompileError("Expected block after `| async move`, found `" + [next.value.ch] + "`"));
      } else if next.Some? && next.value.Group? {
        return Err(CompileError("Expected block after `| async move`, found `" + Open(next.value.delimiter) + "`"));
      }
      return Err(CompileError("Expected block after `| async move`"));
    }
    r := Ok(Closure(closure.value));
  }

  // ------------------------------------------------------------ clone_inner

  /** A capture `parse_ident` accepts: a name not ending in `.`, with an alias when it is `self` or a field access. */
  predicate WellFormedCapture(e: ElemToClone) {
    |e.name| > 0 && e.name[|e.name| - 1] != '.' &&
    (e.name == "self" ==> e.alias.Some?) && ('.' in e.name ==> e.alias.Some?)
  }

  /** Every capture `parse_ident` accepts is well formed. */
  lemma ParseIdentWellFormed(ts: seq<Token>, i: nat)
    requires i <= |ts| && ParseIdentAt(ts, i).Ok?
    ensures WellFormedCapture(ParseIdentAt(ts, i).value.0)
  {
    var w := Words(ts[i..]);
    var kind := KindNamed(JoinWords(w.0)).value;
    var (n, q) := FullIdentAt(ts, i + w.1, "", false, kind).value;
    assert ParseIdentAt(ts, i) == NamedAt(ts, n, q, kind);
  }

  /** Position `k` comes right after a `=>`. */
  predicate ArrowBefore(ts: seq<Token>, k: nat) {
    2 <= k <= |ts| && ts[k - 2] == Punct('=') && ts[k - 1] == Punct('>')
  }

  /**
   * What the capture loop of `clone_inner` answers from token `j`, with
   * `elems` read so far and `prev` telling whether a capture came last:
   * `@` reads a capture, `,` must follow one, `=>` ends the list, other
   * punctuation is passed over, and an identifier, a literal, a group, a
   * `|` and the end are errors. On success, the captures and the position
   * after `=>`.
   */
  function InnerAt(ts: seq<Token>, j: nat, prev: bool, elems: seq<ElemToClone>)
    : (r: Result<(seq<ElemToClone>, nat), Failure>)
    requires j <= |ts|
    ensures r.Ok? ==> j + 2 <= r.value.1 <= |ts| && ArrowBefore(ts, r.value.1)
    ensures r.Ok? ==> elems <= r.value.0
    decreases |ts| - j
  {
    if j == |ts| then Err(CompileError("Unexpected end 4"))
    else match ts[j]
      case Punct(p) =>
        if p == '=' && j + 1 < |ts| && ts[j + 1] == Punct('>') then
          var done: (seq<ElemToClone>, nat) := (elems, j + 2);
          Ok(done)
        else if p == '@' then
          match ParseIdentAt(ts, j + 1)
          case Err(e) => Err(CompileError(e))
          case Ok((e, k)) => InnerAt(ts, k, true, elems + [e])
        else if p == ',' then
          if !prev then Err(Panic("Unexpected `,`")) else InnerAt(ts, j + 1, false, elems)
        else if p == '|' then
          if elems == [] then Err(Panic(NOTHING_TO_CLONE)) else Err(CompileError("Expected `=>` before closure"))
        else InnerAt(ts, j + 1, prev, elems)
      case Ident(i) =>
        Err(CompileError(UnexpectedIdent(i)))
      case _ => Err(CompileError("Unexpected token `" + Piece(ts[j]) + "`"))
  }

  /** The captures the loop adds are well formed. */
  lemma {:induction false} InnerAtWellFormed(ts: seq<Token>, j: nat, prev: bool, elems: seq<ElemToClone>)
    requires j <= |ts| && InnerAt(ts, j, prev, elems).Ok?
    requires forall e :: e in elems ==> WellFormedCapture(e)
    ensures forall e :: e in InnerAt(ts, j, prev, elems).value.0 ==> WellFormedCapture(e)
    decreases |ts| - j
  {
    match ts[j]
    case Punct(p) =>
      if p == '=' && j + 1 < |ts| && ts[j + 1] == Punct('>') {
      } else if p == '@' {
        var (e, k) := ParseIdentAt(ts, j + 1).value;
        ParseIdentWellFormed(ts, j + 1);
        InnerAtWellFormed(ts, k, true, elems + [e]);
      } else if p == ',' {
        InnerAtWellFormed(ts, j + 1, false, elems);
      } else {
        InnerAtWellFormed(ts, j + 1, prev, elems);
      }
  }

  /**
   * What `clone_inner` answers for the macro's input: the captures up to
   * `=>` (at least one), the optional fail action, the closure or async
   * block, and the tokens after it, which form the body.
   */
  function CloneInnerAt(ts: seq<Token>): (r: Result<Parsed, Failure>)
    ensures r.Ok? ==> |r.value.elements| > 0
    ensures r.Ok? ==> |r.value.body| < |ts| && r.value.body == ts[|ts| - |r.value.body|..]
  {
    match InnerAt(ts, 0, false, [])
    case Err(e) => Err(e)
    case Ok((elems, j)) =>
      if elems == [] then Err(Panic(NOTHING_TO_CLONE))
      else match ParseReturnKindAt(ts, j)
        case Err(e) => Err(e)
        case Ok((rk, k)) =>
          match BeforeClosureAt(ts, k)
          case Err(e) => Err(e)
          case Ok((kind, m)) => Ok(Parsed(elems, rk, kind, ts[m..]))
  }

  /** Every capture of an accepted input is well formed, and the block is a `move` closure or async. */
  lemma CloneInnerSound(ts: seq<Token>)
    requires CloneInnerAt(ts).Ok?
    ensures forall e :: e in CloneInnerAt(ts).value.elements ==> WellFormedCapture(e)
  {
    InnerAtWellFormed(ts, 0, false, []);
  }

  /**
   * The loop at the head of `clone_inner`, with the cursor: reads the
   * captures up to `=>`, which it takes.
   */
  method Captures(c: TokenCursor) returns (r: Result<seq<ElemToClone>, Failure>)
    requires c.Valid()
    modifies c
    ensures c.Valid()
    ensures Yields(r, InnerAt(c.tokens, old(c.pos), false, []), c.pos)
  {
    ghost var ts, pos0 := c.tokens, c.pos;
    var elements: seq<ElemToClone> := [];
    var prevIsIdent := false;
    while true
      invariant c.Valid() && c.tokens == ts
      invariant InnerAt(ts, pos0, false, []) == InnerAt(ts, c.pos, prevIsIdent, elements)
      decreases |ts| - c.pos
    {
      var next := c.Next();
      if next.None? {
        return Err(CompileError("Unexpected end 4"));
      }
      match next.value {
        case Punct(p) =>
          var after := c.Peek();
          if p == '=' && after.Some? && after.value == Punct('>') {
            var _ := c.Next();
            break;
          } else if p == '@' {
            var e := ParseIdent(c);
            if e.Err? {
              return Err(CompileError(e.error));
            }
            elements := elements + [e.value];
            prevIsIdent := true;
          } else if p == ',' {
            if !prevIsIdent {
              return Err(Panic("Unexpected `,`"));
            }
            prevIsIdent := false;
          } else if p == '|' {
            if elements == [] {
              return Err(Panic(NOTHING_TO_CLONE));
            }
            return Err(CompileError("Expected `=>` before closure"));
          }
        case Ident(i) =>
          return Err(CompileError(UnexpectedIdent(i)));
        case _ =>
          return Err(CompileError("Unexpected token `" + Piece(next.value) + "`"));
      }
    }
    r := Ok(elements);
  }

  /**
   * `clone_inner` up to `build_closure`: the captures, which must not be
   * empty, then the fail action and the closure, each failure ending the
   * macro.
   */
  method CloneInner(item: seq<Token>) returns (r: Result<Parsed, Failure>)
    ensures r == CloneInnerAt(item)
  {
    var c := new TokenCursor(item);
    var elements := Captures(c);
    if elements.Err? {
      return Err(elements.error);
    }
    if elements.value == [] {
      return Err(Panic(NOTHING_TO_CLONE));
    }
    var returnKind := ParseReturnKind(c);
    if returnKind.Err? {
      return Err(returnKind.error);
    }
    var kind := CheckBeforeClosure(c);
    if kind.Err? {
      return Err(kind.error);
    }
    r := Ok(Parsed(elements.value, returnKind.value, kind.value, c.tokens[c.pos..]));
  }

  /** The input's first failures: an empty input, a bare identifier, `=>` with no capture, and `|` with no capture. */
  lemma CloneInnerErrors()
    ensures CloneInnerAt([]) == Err(CompileError("Unexpected end 4"))
    ensures CloneInnerAt([Ident("x")]) == Err(CompileError(UnexpectedIdent("x")))
    ensures CloneInnerAt([Punct('='), Punct('>')]) == Err(Panic(NOTHING_TO_CLONE))
    ensures CloneInnerAt([Punct('|')]) == Err(Panic(NOTHING_TO_CLONE))
  {
    var x: seq<Token> := [Ident("x")];
    assert x[0].name == "x";
  }
}
