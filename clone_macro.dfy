/**
 * glib-macros/src/clone.rs: the parsers of the `clone!` macro, which walk
 * a peekable token iterator with mutable flags, and the statements it
 * generates for each captured variable. Tokens are modelled as a tree of
 * identifiers, single-character punctuation, literals and delimited
 * groups; error values carry the message of the `compile_error!` the
 * macro expands to.
 */
module CloneMacro {
  import opened Wrappers
  import opened Text

  type IdentName = s: string | |s| > 0 witness "x"

  datatype Delimiter = Parenthesis | Brace | Bracket | NoDelimiter

  datatype Token =
    | Ident(name: IdentName)
    | Punct(ch: char)
    | Literal(text: string)
    | Group(delimiter: Delimiter, inner: seq<Token>)

  /** `PeekableProcIter`: the tokens and how many of them have been taken. */
  class TokenCursor {
    const tokens: seq<Token>
    var pos: nat

    predicate Valid()
      reads this
    {
      pos <= |tokens|
    }

    constructor (ts: seq<Token>)
      ensures Valid() && tokens == ts && pos == 0
    {
      tokens := ts;
      pos := 0;
    }

    /** `peek`. */
    function Peek(): (t: Option<Token>)
      reads this
      requires Valid()
      ensures t.Some? <==> pos < |tokens|
      ensures t.Some? ==> t.value == tokens[pos]
    {
      if pos < |tokens| then Some(tokens[pos]) else None
    }

    /** `next`: the token peeked, now taken. */
    method Next() returns (t: Option<Token>)
      requires Valid()
      modifies this
      ensures Valid()
      ensures t == old(Peek())
      ensures pos == if old(pos) < |tokens| then old(pos) + 1 else old(pos)
    {
      t := Peek();
      if pos < |tokens| {
        pos := pos + 1;
      }
    }
  }

  /**
   * A parser's result `r`, with the cursor left at `pos`, is the answer `s`
   * of its specification: on success the value and where the parser stops.
   */
  predicate Yields<T(==), E(==)>(r: Result<T, E>, s: Result<(T, nat), E>, pos: nat) {
    match r
    case Ok(v) => s == Ok((v, pos))
    case Err(e) => s == Err(e)
  }

  datatype BorrowKind = Weak | WeakAllowNone | Strong | ToOwned

  function KindText(k: BorrowKind): string {
    match k
    case Weak => "@weak"
    case WeakAllowNone => "@weak-allow-none"
    case Strong => "@strong"
    case ToOwned => "@to-owned"
  }

  // ---------------------------------------------------------------- keyword

  /**
   * The words of a keyword, by its grammar: an identifier, then as long as
   * a `-` follows, the `-` and the words after it. A `-` not followed by an
   * identifier is taken but adds no word. Returns the words and the number
   * of tokens taken.
   */
  function Words(ts: seq<Token>): (r: (seq<string>, nat))
    ensures r.1 <= |ts|
    ensures r.0 == [] <==> r.1 == 0
    decreases |ts|
  {
    if |ts| > 0 && ts[0].Ident? then
      var t := AfterWord(ts[1..]);
      ([ts[0].name] + t.0, 1 + t.1)
    else ([], 0)
  }

  function AfterWord(ts: seq<Token>): (r: (seq<string>, nat))
    ensures r.1 <= |ts|
    decreases |ts|
  {
    if |ts| > 0 && ts[0] == Punct('-') then
      var w := Words(ts[1..]);
      (w.0, 1 + w.1)
    else ([], 0)
  }

  /** Every word of a keyword is one of its identifier tokens. */
  lemma {:induction false} WordsAreIdents(ts: seq<Token>)
    ensures forall w :: w in Words(ts).0 ==> Ident(w) in ts
    decreases |ts|, 1
  {
    if |ts| > 0 && ts[0].Ident? {
      AfterWordIdents(ts[1..]);
      forall w | w in Words(ts).0
        ensures Ident(w) in ts
      {
        if w != ts[0].name {
          assert w in AfterWord(ts[1..]).0;
          assert Ident(w) in ts[1..];
        }
      }
    }
  }

  lemma {:induction false} AfterWordIdents(ts: seq<Token>)
    ensures forall w :: w in AfterWord(ts).0 ==> Ident(w) in ts
    decreases |ts|, 0
  {
    if |ts| > 0 && ts[0] == Punct('-') {
      WordsAreIdents(ts[1..]);
      assert forall t :: t in ts[1..] ==> t in ts;
    }
  }

  /** The words joined with `-`, the empty string for none. */
  function JoinWords(words: seq<string>): string {
    if |words| == 0 then "" else Join(words, '-')
  }

  const DEFAULT_RETURN_MISPLACED := "`@default-return` should be after `=>`"
  const DEFAULT_PANIC_MISPLACED := "`@default-panic` should be after `=>`"

  /** The borrow kind a keyword names; the fail actions and anything else are errors. */
  function KindNamed(keyword: string): (r: Result<BorrowKind, string>)
    ensures r.Ok? <==> keyword in {"strong", "weak", "weak-allow-none", "to-owned"}
    ensures r.Ok? ==> KindText(r.value) == "@" + keyword
    ensures keyword == "default-return" ==> r == Err(DEFAULT_RETURN_MISPLACED)
    ensures keyword == "default-panic" ==> r == Err(DEFAULT_PANIC_MISPLACED)
  {
    if keyword == "strong" then Ok(Strong)
    else if keyword == "weak" then Ok(Weak)
    else if keyword == "weak-allow-none" then Ok(WeakAllowNone)
    else if keyword == "to-owned" then Ok(ToOwned)
    else if keyword == "default-return" then Err(DEFAULT_RETURN_MISPLACED)
    else if keyword == "default-panic" then Err(DEFAULT_PANIC_MISPLACED)
    else Err("Unknown keyword `" + keyword + "`, only `weak`, `weak-allow-none`, `to-owned` and `strong` are allowed")
  }

  lemma {:induction false} JoinWordsSnoc(words: seq<string>, w: string)
    ensures JoinWords(words + [w]) == if |words| == 0 then w else JoinWords(words) + "-" + w
    decreases |words|
  {
    if |words| == 0 {
      assert words + [w] == [w];
    } else if |words| == 1 {
      assert words + [w] == [words[0], w];
      assert [words[0], w][1..] == [w];
      assert Join([words[0], w], '-') == words[0] + ['-'] + w;
      assert "-" == ['-'];
    } else {
      JoinWordsSnoc(words[1..], w);
      assert (words + [w])[1..] == words[1..] + [w];
    }
  }

  /**
   * `keyword`: joins identifiers separated by single `-` tokens, keeping a
   * `-` back until an identifier follows it, and names the borrow kind.
   */
  method Keyword(c: TokenCursor) returns (r: Result<BorrowKind, string>)
    requires c.Valid()
    modifies c
    ensures c.Valid()
    ensures c.pos == old(c.pos) + Words(c.tokens[old(c.pos)..]).1
    ensures r == KindNamed(JoinWords(Words(c.tokens[old(c.pos)..]).0))
    ensures Yields(r, KeywordAt(c.tokens, old(c.pos)), c.pos)
  {
    ghost var pos0 := c.pos;
    ghost var words: seq<string> := [];
    var ret := "";
    var prevIsIdent := false;
    var stored := false;
    while true
      invariant c.Valid() && pos0 <= c.pos
      invariant ret == JoinWords(words)
      invariant !(prevIsIdent && stored)
      invariant !prevIsIdent && !stored ==> words == [] && c.pos == pos0
      invariant prevIsIdent || stored ==> words != []
      invariant Words(c.tokens[pos0..]).0 ==
        words + (if prevIsIdent then AfterWord(c.tokens[c.pos..]) else Words(c.tokens[c.pos..])).0
      invariant Words(c.tokens[pos0..]).1 ==
        c.pos - pos0 + (if prevIsIdent then AfterWord(c.tokens[c.pos..]) else Words(c.tokens[c.pos..])).1
      decreases |c.tokens| - c.pos
    {
      var next := c.Peek();
      ghost var rest := c.tokens[c.pos..];
      assert c.pos < |c.tokens| ==> rest[1..] == c.tokens[c.pos + 1..];
      if next.Some? && next.value.Ident? {
        if prevIsIdent {
          assert AfterWord(rest) == ([], 0);
          break;
        }
        prevIsIdent := true;
        JoinWordsSnoc(words, next.value.name);
        if stored {
          ret := ret + "-";
          stored := false;
        }
        ret := ret + next.value.name;
        assert Words(rest).0 == [next.value.name] + AfterWord(rest[1..]).0;
        words := words + [next.value.name];
      } else if next.Some? && next.value == Punct('-') {
        if !prevIsIdent {
          break;
        }
        prevIsIdent := false;
        stored := true;
      } else {
        break;
      }
      var _ := c.Next();
    }
    assert ret == JoinWords(words);
    assert c.pos == pos0 + Words(c.tokens[pos0..]).1;
    assert words == Words(c.tokens[pos0..]).0;
    r := KindNamed(ret);
  }

  /** What `keyword` answers at token `i`: the kind its words name, and the position after them. */
  function KeywordAt(ts: seq<Token>, i: nat): (r: Result<(BorrowKind, nat), string>)
    requires i <= |ts|
    ensures r.Ok? ==> i < r.value.1 <= |ts|
  {
    var w := Words(ts[i..]);
    match KindNamed(JoinWords(w.0))
    case Err(e) => Err(e)
    case Ok(kind) =>
      Ok((kind, i + w.1))
  }

  /** The tokens `weak - allow - none` make the keyword `weak-allow-none`. */
  lemma KeywordExample()
    ensures JoinWords(Words([Ident("weak"), Punct('-'), Ident("allow"), Punct('-'), Ident("none")]).0) == "weak-allow-none"
  {
    var words := ExampleWords();
    assert words[1..][1..] == ["none"];
    assert Join(words[1..], '-') == "allow-none";
  }

  /** The identifiers read from `weak-allow-none`. */
  lemma ExampleWords() returns (words: seq<string>)
    ensures words == Words([Ident("weak"), Punct('-'), Ident("allow"), Punct('-'), Ident("none")]).0
    ensures words == ["weak", "allow", "none"]
  {
    var ts: seq<Token> := [Ident("weak"), Punct('-'), Ident("allow"), Punct('-'), Ident("none")];
    var none: seq<Token> := [Ident("none")];
    var dashNone: seq<Token> := [Punct('-')] + none;
    var allowNone: seq<Token> := [Ident("allow")] + dashNone;
    var dashAllowNone: seq<Token> := [Punct('-')] + allowNone;
    assert ts == [Ident("weak")] + dashAllowNone;
    assert none[1..] == [];
    assert Words(none).0 == ["none"];
    assert dashNone[1..] == none;
    assert AfterWord(dashNone).0 == ["none"];
    assert allowNone[1..] == dashNone;
    assert Words(allowNone).0 == ["allow", "none"];
    assert dashAllowNone[1..] == allowNone;
    assert AfterWord(dashAllowNone).0 == ["allow", "none"];
    assert ts[1..] == dashAllowNone;
    words := Words(ts).0;
  }

  /** Splitting a keyword at `-` gives back the identifiers it was read from. */
  lemma KeywordSplitsBack(ts: seq<Token>)
    requires Words(ts).0 != []
    requires forall t :: t in ts && t.Ident? ==> '-' !in t.name
    ensures Split(JoinWords(Words(ts).0), '-') == Words(ts).0
  {
    WordsAreIdents(ts);
    SplitJoin(Words(ts).0, '-');
  }

  // ------------------------------------------------------------- full_ident

  /** How many tokens of a dotted path start `ts`: identifiers and `.`, alternating, from an identifier. */
  function PathLen(ts: seq<Token>): (n: nat)
    ensures n <= |ts|
    decreases |ts|
  {
    if |ts| > 0 && ts[0].Ident? then 1 + AfterIdent(ts[1..]) else 0
  }

  function AfterIdent(ts: seq<Token>): (n: nat)
    ensures n <= |ts|
    decreases |ts|
  {
    if |ts| > 0 && ts[0] == Punct('.') then 1 + PathLen(ts[1..]) else 0
  }

  /** A token that may end a dotted path: `,`, `=`, or the identifier after its last identifier. */
  predicate EndsPath(t: Token) {
    t == Punct(',') || t == Punct('=') || t.Ident?
  }

  /** `ts` starts with a non-empty dotted path followed by a token that may end it. */
  predicate PathOk(ts: seq<Token>) {
    var n := PathLen(ts);
    0 < n < |ts| && EndsPath(ts[n])
  }

  /** The source text of a dotted path's tokens. */
  function PathText(ts: seq<Token>): string {
    if |ts| == 0 then ""
    else PathText(ts[..|ts| - 1]) + (match ts[|ts| - 1] case Ident(n) => n case Punct(ch) => [ch] case _ => "")
  }

  /** The path grammar at position `j`, after an identifier when `prev`. */
  function PathFrom(ts: seq<Token>, j: nat, prev: bool): nat
    requires j <= |ts|
  {
    if prev then AfterIdent(ts[j..]) else PathLen(ts[j..])
  }

  /** One step of `full_ident`'s loop against the path grammar. */
  lemma PathStep(ts: seq<Token>, j: nat, prev: bool)
    requires j < |ts|
    ensures prev && ts[j] == Punct('.') ==> PathFrom(ts, j, prev) == 1 + PathFrom(ts, j + 1, false)
    ensures !prev && ts[j].Ident? ==> PathFrom(ts, j, prev) == 1 + PathFrom(ts, j + 1, true)
    ensures prev && ts[j] != Punct('.') ==> PathFrom(ts, j, prev) == 0
    ensures !prev && !ts[j].Ident? ==> PathFrom(ts, j, prev) == 0
  {
    assert ts[j..][1..] == ts[j + 1..];
  }

  lemma PathTextSnoc(ts: seq<Token>, i: nat, j: nat)
    requires i <= j < |ts|
    ensures PathText(ts[i..j + 1]) == PathText(ts[i..j]) + PathText([ts[j]])
  {
    assert ts[i..j + 1][..j - i] == ts[i..j];
    assert [ts[j]][..0] == [];
  }

  /** The loop state of `full_ident` after the tokens from `pos0` to `pos`. */
  ghost predicate PathWalk(ts: seq<Token>, pos0: nat, pos: nat, name: string, prev: bool) {
    pos0 <= pos <= |ts|
    && name == PathText(ts[pos0..pos])
    && (prev <==> pos > pos0 && ts[pos - 1].Ident?)
    && (pos > pos0 ==> |name| > 0)
    && PathFrom(ts, pos0, false) == pos - pos0 + PathFrom(ts, pos, prev)
  }

  /** Taking an identifier after a `.` (or first), or a `.` after an identifier, keeps the loop state. */
  lemma PathWalkTake(ts: seq<Token>, pos0: nat, pos: nat, name: string, prev: bool)
    requires PathWalk(ts, pos0, pos, name, prev) && pos < |ts|
    requires (prev && ts[pos] == Punct('.')) || (!prev && ts[pos].Ident?)
    ensures PathWalk(ts, pos0, pos + 1, name + PathText([ts[pos]]), ts[pos].Ident?)
  {
    PathStep(ts, pos, prev);
    PathTextSnoc(ts, pos0, pos);
    assert [ts[pos]][..0] == [];
  }

  /** Where the grammar takes no more tokens, the path is the tokens read so far. */
  lemma PathWalkEnd(ts: seq<Token>, pos0: nat, pos: nat, name: string, prev: bool)
    requires PathWalk(ts, pos0, pos, name, prev)
    requires pos == |ts| || ((prev || !ts[pos].Ident?) && (!prev || ts[pos] != Punct('.')))
    ensures PathLen(ts[pos0..]) == pos - pos0
    ensures PathOk(ts[pos0..]) <==> pos < |ts| && pos > pos0 && EndsPath(ts[pos])
  {
    if pos < |ts| {
      PathStep(ts, pos, prev);
      assert ts[pos0..][pos - pos0] == ts[pos];
    }
  }

  /** What one token does to `full_ident`'s loop. */
  datatype PathTurn = Stop | Fail(msg: string) | Take(name: string, prevIsIdent: bool)

  /** The body of `full_ident`'s loop for the token `t`. */
  function FullIdentTurn(t: Token, name: string, prevIsIdent: bool, kind: BorrowKind): (o: PathTurn)
    ensures o.Stop? <==> t == Punct(',') || t == Punct('=') || (t.Ident? && prevIsIdent)
    ensures o.Take? <==> (t == Punct('.') && prevIsIdent) || (t.Ident? && !prevIsIdent)
    ensures o.Take? ==> o.name == name + PathText([t]) && o.prevIsIdent == t.Ident?
  {
    assert [t][..0] == [];
    match t
    case Punct(p) =>
      if p == ',' || p == '=' then Stop
      else if p == '.' then
        if !prevIsIdent then Fail("Unexpected `.` after `" + KindText(kind) + "`") else Take(name + ".", false)
      else if name == "" then Fail("Expected ident, found `" + [p] + "`")
      else Fail("Expected ident, found `" + [p] + "` after `" + name + "`")
    case Ident(i) =>
      if prevIsIdent then Stop else Take(name + i, true)
    case _ =>
      if name == "" then Fail("Expected ident, found `" + Piece(t) + "`")
      else Fail("Expected ident, found `" + Piece(t) + "` after `" + name + "`")
  }

  /**
   * What `full_ident` answers from token `j` on, having read `name` (ending
   * in an identifier when `prev`): the path and the position of the token
   * that ends it, which is not taken, or the error.
   */
  function FullIdentAt(ts: seq<Token>, j: nat, name: string, prev: bool, kind: BorrowKind)
    : (r: Result<(string, nat), string>)
    requires j <= |ts|
    ensures r.Ok? ==> j <= r.value.1 < |ts| && |r.value.0| > 0
    ensures r.Ok? && r.value.1 == j ==> r.value.0 == name
    decreases |ts| - j
  {
    if j == |ts| then Err("Unexpected end after ident `" + name + "`")
    else match FullIdentTurn(ts[j], name, prev, kind)
      case Stop => if name == "" then Err("Expected ident, found `" + Piece(ts[j]) + "`") else Ok((name, j))
      case Fail(msg) => Err(msg)
      case Take(name', prev') => FullIdentAt(ts, j + 1, name', prev', kind)
  }

  /**
   * `full_ident`: reads `.`-separated identifiers until a `,` or `=`
   * (or a second identifier in a row), without taking it. A `.` not after
   * an identifier, any other token, the end of input, and an empty path
   * are errors.
   */
  method FullIdent(c: TokenCursor, kind: BorrowKind) returns (r: Result<string, string>)
    requires c.Valid()
    modifies c
    ensures c.Valid()
    ensures r.Ok? <==> PathOk(c.tokens[old(c.pos)..])
    ensures r.Ok? ==> c.pos == old(c.pos) + PathLen(c.tokens[old(c.pos)..])
    ensures r.Ok? ==> r.value == PathText(c.tokens[old(c.pos)..c.pos]) && |r.value| > 0
    ensures Yields(r, FullIdentAt(c.tokens, old(c.pos), "", false, kind), c.pos)
  {
    ghost var pos0 := c.pos;
    ghost var ts := c.tokens;
    var name := "";
    var prevIsIdent := false;
    assert ts[pos0..pos0] == [];
    FullIdentAtWalk(ts, pos0, pos0, "", false, kind);
    while true
      invariant c.Valid() && c.tokens == ts && pos0 <= c.pos
      invariant FullIdentAt(ts, pos0, "", false, kind) == FullIdentAt(ts, c.pos, name, prevIsIdent, kind)
      decreases |ts| - c.pos
    {
      var next := c.Peek();
      if next.None? {
        return Err("Unexpected end after ident `" + name + "`");
      }
      var o := FullIdentTurn(next.value, name, prevIsIdent, kind);
      match o
      case Stop =>
        break;
      case Fail(msg) =>
        return Err(msg);
      case Take(name', prev') =>
        name, prevIsIdent := name', prev';
        var _ := c.Next();
    }
    if name == "" {
      var after := c.Next();
      return Err("Expected ident, found `" + Piece(after.value) + "`");
    }
    r := Ok(name);
  }

  /**
   * `FullIdentAt` follows the path grammar: from a loop state it succeeds
   * exactly when a well-formed path ended by `,`, `=` or an identifier
   * starts at `pos0`, and then stops right after the path and answers its
   * text.
   */
  lemma {:induction false} FullIdentAtWalk(ts: seq<Token>, pos0: nat, j: nat, name: string, prev: bool,
                                           kind: BorrowKind)
    requires PathWalk(ts, pos0, j, name, prev)
    ensures var r := FullIdentAt(ts, j, name, prev, kind);
      (r.Ok? <==> PathOk(ts[pos0..])) &&
      (r.Ok? ==> r.value.1 == pos0 + PathLen(ts[pos0..]) && r.value.0 == PathText(ts[pos0..r.value.1]))
    decreases |ts| - j
  {
    if j == |ts| {
      PathWalkEnd(ts, pos0, j, name, prev);
    } else {
      match FullIdentTurn(ts[j], name, prev, kind)
      case Stop =>
        PathWalkEnd(ts, pos0, j, name, prev);
        if name == "" {
          assert j == pos0;
        }
      case Fail(_) =>
        PathWalkEnd(ts, pos0, j, name, prev);
      case Take(name', prev') =>
        PathWalkTake(ts, pos0, j, name, prev);
        FullIdentAtWalk(ts, pos0, j + 1, name', prev', kind);
    }
  }

  // ------------------------------------------------------------ parse_ident

  /** `ElemToClone`: a captured variable. */
  datatype ElemToClone = ElemToClone(name: string, alias: Option<string>, kind: BorrowKind)

  const SELF_WITHOUT_ALIAS :=
    "Can't use `self` as variable name. Try storing it in a temporary variable or rename it using `as`."

  /**
   * The optional `as alias` after a captured path at token `i`: `as` must
   * be followed by an identifier, and an identifier other than `as` is an
   * error. On success, the alias and the position after it.
   */
  function AliasAt(ts: seq<Token>, i: nat): (r: Result<(Option<string>, nat), string>)
    requires i <= |ts|
    ensures r.Ok? ==> i <= r.value.1 <= |ts|
    ensures r.Ok? ==> (r.value.0.Some? <==> r.value.1 == i + 2)
  {
    if i < |ts| && ts[i] == Ident("as") then
      if i + 1 == |ts| then Err("Unexpected end after `as` keyword")
      else if !ts[i + 1].Ident? then Err("Expected ident after `as` keyword, found `" + Piece(ts[i + 1]) + "`")
      else
        var alias: string := ts[i + 1].name;
        var after: (Option<string>, nat) := (Some(alias), i + 2);
        Ok(after)
    else if i < |ts| && ts[i].Ident? then Err("Unexpected `" + ts[i].name + "`")
    else Ok((None, i))
  }

  /** Reads the optional alias with the cursor, as `AliasAt` says. */
  method Alias(c: TokenCursor) returns (r: Result<Option<string>, string>)
    requires c.Valid()
    modifies c
    ensures c.Valid()
    ensures Yields(r, AliasAt(c.tokens, old(c.pos)), c.pos)
  {
    var next := c.Peek();
    if next.Some? && next.value == Ident("as") {
      var _ := c.Next();
      var after := c.Next();
      if after.None? {
        return Err("Unexpected end after `as` keyword");
      } else if !after.value.Ident? {
        return Err("Expected ident after `as` keyword, found `" + Piece(after.value) + "`");
      }
      r := Ok(Some(after.value.name));
    } else if next.Some? && next.value.Ident? {
      return Err("Unexpected `" + next.value.name + "`");
    } else {
      r := Ok(None);
    }
  }

  /**
   * What `parse_ident` answers at token `i`: a keyword, a path, and an
   * optional `as alias`; the path may not end with `.`, and `self` or a
   * field access needs an alias. On success, the capture and the position
   * after it.
   */
  function ParseIdentAt(ts: seq<Token>, i: nat): (r: Result<(ElemToClone, nat), string>)
    requires i <= |ts|
    ensures r.Ok? ==> i < r.value.1 <= |ts|
    ensures r.Ok? ==> KindNamed(JoinWords(Words(ts[i..]).0)) == Ok(r.value.0.kind)
    ensures r.Ok? ==> var n := r.value.0.name;
      |n| > 0 && n[|n| - 1] != '.' && (n == "self" ==> r.value.0.alias.Some?) && ('.' in n ==> r.value.0.alias.Some?)
  {
    match KeywordAt(ts, i)
    case Err(e) => Err(e)
    case Ok((kind, p)) => PathAt(ts, p, kind)
  }

  /** `parse_ident` once the keyword has named `kind`: the path from token `p` on. */
  function PathAt(ts: seq<Token>, p: nat, kind: BorrowKind): (r: Result<(ElemToClone, nat), string>)
    requires p <= |ts|
    ensures r.Ok? ==> p < r.value.1 <= |ts| && r.value.0.kind == kind
    ensures r.Ok? ==> var n := r.value.0.name;
      |n| > 0 && n[|n| - 1] != '.' && (n == "self" ==> r.value.0.alias.Some?) && ('.' in n ==> r.value.0.alias.Some?)
  {
    match FullIdentAt(ts, p, "", false, kind)
    case Err(e) => Err(e)
    case Ok((n, q)) => NamedAt(ts, n, q, kind)
  }

  /** `parse_ident` once the path `n` has been read, up to token `q`. */
  function NamedAt(ts: seq<Token>, n: string, q: nat, kind: BorrowKind): (r: Result<(ElemToClone, nat), string>)
    requires q <= |ts| && |n| > 0
    ensures r.Ok? ==> q <= r.value.1 <= |ts| && r.value.0.name == n && r.value.0.kind == kind
    ensures r.Ok? ==> n[|n| - 1] != '.' && (n == "self" ==> r.value.0.alias.Some?) && ('.' in n ==> r.value.0.alias.Some?)
  {
    if n[|n| - 1] == '.' then Err("Invalid variable name: `" + n + "`")
    else match AliasAt(ts, q)
      case Err(e) => Err(e)
      case Ok((alias, q')) =>
        if n == "self" && alias.None? then Err(SELF_WITHOUT_ALIAS)
        else if '.' in n && alias.None? then Err("`" + n + "`: Field accesses are not allowed as is, you must rename it!")
        else Ok((ElemToClone(n, alias, kind), q'))
  }

  /**
   * `parse_ident`, with the cursor: its answer is `ParseIdentAt`'s, and a
   * capture's name is the text of the dotted path after the keyword.
   */
  /** The text of the dotted path that starts at token `p`. */
  function PathNameAt(ts: seq<Token>, p: nat): string
    requires p <= |ts|
  {
    PathText(ts[p..p + PathLen(ts[p..])])
  }

  method ParseIdent(c: TokenCursor) returns (r: Result<ElemToClone, string>)
    requires c.Valid()
    modifies c
    ensures c.Valid()
    ensures Yields(r, ParseIdentAt(c.tokens, old(c.pos)), c.pos)
    ensures r.Ok? ==> r.value.name == PathNameAt(c.tokens, KeywordAt(c.tokens, old(c.pos)).value.1)
    ensures r.Ok? ==> KindNamed(JoinWords(Words(c.tokens[old(c.pos)..]).0)) == Ok(r.value.kind)
    ensures r.Ok? ==> |r.value.name| > 0 && r.value.name[|r.value.name| - 1] != '.'
    ensures r.Ok? && r.value.name == "self" ==> r.value.alias.Some?
    ensures r.Ok? && '.' in r.value.name ==> r.value.alias.Some?
  {
    ghost var ts, i := c.tokens, c.pos;
    var kind := Keyword(c);
    if kind.Err? {
      return Err(kind.error);
    }
    ghost var p := c.pos;
    r := PathCapture(c, kind.value);
    assert r.Ok? ==> r.value.name == PathNameAt(ts, p);
  }

  /**
   * The part of `parse_ident` after the keyword: the path, its checks and
   * the alias.
   */
  method PathCapture(c: TokenCursor, kind: BorrowKind) returns (r: Result<ElemToClone, string>)
    requires c.Valid()
    modifies c
    ensures c.Valid()
    ensures Yields(r, PathAt(c.tokens, old(c.pos), kind), c.pos)
    ensures r.Ok? ==> r.value.name == PathNameAt(c.tokens, old(c.pos))
  {
    ghost var ts, p := c.tokens, c.pos;
    var name := FullIdent(c, kind);
    if name.Err? {
      return Err(name.error);
    }
    ghost var q := c.pos;
    assert PathAt(ts, p, kind) == NamedAt(ts, name.value, q, kind);
    assert name.value == PathNameAt(ts, p);
    r := Named(c, name.value, kind);
  }

  /** The checks of `parse_ident` on the path `n` it read, and the alias after it. */
  method Named(c: TokenCursor, n: string, kind: BorrowKind) returns (r: Result<ElemToClone, string>)
    requires c.Valid() && |n| > 0
    modifies c
    ensures c.Valid()
    ensures Yields(r, NamedAt(c.tokens, n, old(c.pos), kind), c.pos)
  {
    if n[|n| - 1] == '.' {
      return Err("Invalid variable name: `" + n + "`");
    }
    var aliased := Alias(c);
    if aliased.Err? {
      return Err(aliased.error);
    }
    var alias := aliased.value;
    if n == "self" && alias.None? {
      return Err(SELF_WITHOUT_ALIAS);
    } else if '.' in n && alias.None? {
      return Err("`" + n + "`: Field accesses are not allowed as is, you must rename it!");
    }
    r := Ok(ElemToClone(n, alias, kind));
  }

  // --------------------------------------------------- generated statements

  /** The name the capture is bound to in the closure: the alias, else the variable's own name. */
  function Binder(e: ElemToClone): string {
    if e.alias.Some? then e.alias.value else e.name
  }

  /** What `to_str_before` emits outside the closure. */
  datatype Before =
    | DowngradeTo(binder: string, source: string)
    | CloneTo(binder: string, source: string)
    | ToOwnedTo(binder: string, source: string)

  /** `to_str_before`: weak kinds downgrade, strong clones, to-owned calls `ToOwned`. */
  function ToStrBefore(e: ElemToClone): (b: Before)
    ensures b.binder == Binder(e) && b.source == e.name
    ensures b.DowngradeTo? <==> e.kind in {Weak, WeakAllowNone}
    ensures b.CloneTo? <==> e.kind == Strong
    ensures b.ToOwnedTo? <==> e.kind == ToOwned
  {
    match e.kind
    case Weak => DowngradeTo(Binder(e), e.name)
    case WeakAllowNone => DowngradeTo(Binder(e), e.name)
    case Strong => CloneTo(Binder(e), e.name)
    case ToOwned => ToOwnedTo(Binder(e), e.name)
  }

  /** The fail action after `=>`: `@default-panic` or `@default-return value`. */
  datatype WrapperKind = DefaultPanic | DefaultReturn(value: string)

  /** What `to_str_after` emits at the top of the closure body. */
  datatype After =
    | UpgradeOrPanic(binder: string)
    | UpgradeOrReturn(binder: string, value: string)
    | UpgradeOrReturnUnit(binder: string)
    | UpgradeToOption(binder: string)
    | Nothing

  /**
   * `to_str_after`: `weak-allow-none` rebinds an `Option` upgrade; `weak`
   * upgrades and, on failure, panics, returns the default value, or
   * returns `()`; strong and to-owned captures need nothing.
   */
  function ToStrAfter(e: ElemToClone, w: Option<WrapperKind>): (a: After)
    ensures a.Nothing? <==> e.kind in {Strong, ToOwned}
    ensures e.kind == WeakAllowNone ==> a == UpgradeToOption(Binder(e))
    ensures e.kind == Weak && w == Some(DefaultPanic) ==> a == UpgradeOrPanic(Binder(e))
    ensures e.kind == Weak && w.Some? && w.value.DefaultReturn? ==> a == UpgradeOrReturn(Binder(e), w.value.value)
    ensures e.kind == Weak && w.None? ==> a == UpgradeOrReturnUnit(Binder(e))
  {
    match (e.kind, w)
    case (Weak, Some(DefaultPanic)) => UpgradeOrPanic(Binder(e))
    case (Weak, Some(DefaultReturn(r))) => UpgradeOrReturn(Binder(e), r)
    case (Weak, None) => UpgradeOrReturnUnit(Binder(e))
    case (WeakAllowNone, _) => UpgradeToOption(Binder(e))
    case _ => Nothing
  }

  /**
   * Every statement inside the closure upgrades exactly the weak reference
   * that was bound outside it: the names line up, and only downgraded
   * captures are upgraded.
   */
  lemma UpgradesMatchDowngrades(e: ElemToClone, w: Option<WrapperKind>)
    ensures !ToStrAfter(e, w).Nothing? <==> ToStrBefore(e).DowngradeTo?
    ensures !ToStrAfter(e, w).Nothing? ==> ToStrAfter(e, w).binder == ToStrBefore(e).binder
  {
  }

  // ------------------------------------------------------- tokens_to_string

  predicate IdentLike(t: Token) { t.Ident? || t.Literal? }

  function Open(d: Delimiter): string {
    match d case Parenthesis => "(" case Brace => "{" case Bracket => "[" case NoDelimiter => ""
  }

  function Close(d: Delimiter): string {
    match d case Parenthesis => ")" case Brace => "}" case Bracket => "]" case NoDelimiter => ""
  }

  /**
   * The text of a token sequence: tokens side by side, with one space
   * between an identifier or literal and an identifier or literal right
   * after it; a group is its delimiters around its own text.
   */
  function Render(ts: seq<Token>, prevIsIdent: bool): string
    decreases ts
  {
    if |ts| == 0 then "" else RenderToken(ts[0], prevIsIdent) + Render(ts[1..], IdentLike(ts[0]))
  }

  /** One token's text, with the space it takes after an ident-like token. */
  function RenderToken(t: Token, prevIsIdent: bool): string
    decreases t
  {
    match t
    case Punct(p) => [p]
    case Ident(n) => (if prevIsIdent then " " else "") + n
    case Literal(l) => (if prevIsIdent then " " else "") + l
    case Group(d, inner) => Open(d) + Render(inner, false) + Close(d)
  }

  /** `group_to_string`. */
  method GroupToString(d: Delimiter, inner: seq<Token>) returns (s: string)
    ensures s == Open(d) + Render(inner, false) + Close(d)
    decreases inner, 1
  {
    var body := TokensToString(inner);
    s := Open(d) + body + Close(d);
  }

  /**
   * `tokens_to_string`: one pass with a flag remembering whether the last
   * token was ident-like.
   */
  method TokensToString(ts: seq<Token>) returns (ret: string)
    ensures ret == Render(ts, false)
    decreases ts, 0
  {
    ret := "";
    var prevIsIdent := false;
    var i := 0;
    while i < |ts|
      invariant 0 <= i <= |ts|
      invariant prevIsIdent <==> i > 0 && IdentLike(ts[i - 1])
      invariant ret + Render(ts[i..], prevIsIdent) == Render(ts, false)
      decreases |ts| - i
    {
      var piece, nowIdent := TokenToString(ts[i], prevIsIdent);
      RenderStep(ts, i, ret, prevIsIdent, piece);
      ret, prevIsIdent := ret + piece, nowIdent;
      i := i + 1;
    }
  }

  /** Rendering from `i` is the token at `i` followed by the rest, so a turn of the loop keeps its invariant. */
  lemma RenderStep(ts: seq<Token>, i: nat, ret: string, prev: bool, piece: string)
    requires i < |ts| && piece == RenderToken(ts[i], prev)
    requires ret + Render(ts[i..], prev) == Render(ts, false)
    ensures (ret + piece) + Render(ts[i + 1..], IdentLike(ts[i])) == Render(ts, false)
  {
    assert ts[i..][1..] == ts[i + 1..];
    var rest := Render(ts[i + 1..], IdentLike(ts[i]));
    assert Render(ts[i..], prev) == piece + rest;
    assert (ret + piece) + rest == ret + (piece + rest);
  }

  /**
   * One turn of `tokens_to_string`'s loop: punctuation and groups clear the
   * flag, identifiers and literals (`handle_ident_like`) take a space after
   * an ident-like token and set it.
   */
  method TokenToString(t: Token, prevIsIdent: bool) returns (piece: string, nowIdent: bool)
    ensures piece == RenderToken(t, prevIsIdent)
    ensures nowIdent == IdentLike(t)
    decreases t, 2
  {
    match t
    case Punct(p) =>
      nowIdent := false;
      piece := [p];
    case Ident(n) =>
      piece := (if prevIsIdent then " " else "") + n;
      nowIdent := true;
    case Literal(l) =>
      piece := (if prevIsIdent then " " else "") + l;
      nowIdent := true;
    case Group(d, inner) =>
      nowIdent := false;
      piece := GroupToString(d, inner);
  }

  /** The own text of a token without groups. */
  function TokenText(t: Token): string
    requires !t.Group?
  {
    match t case Punct(p) => [p] case Ident(n) => n case Literal(l) => l
  }

  /** The number of adjacent ident-like pairs, after a token that is ident-like when `prev`. */
  function IdentPairs(ts: seq<Token>, prev: bool): nat {
    if |ts| == 0 then 0 else (if prev && IdentLike(ts[0]) then 1 else 0) + IdentPairs(ts[1..], IdentLike(ts[0]))
  }

  function CountSpaces(s: string): nat {
    if |s| == 0 then 0 else (if s[0] == ' ' then 1 else 0) + CountSpaces(s[1..])
  }

  function WithoutSpaces(s: string): string {
    if |s| == 0 then "" else (if s[0] == ' ' then "" else [s[0]]) + WithoutSpaces(s[1..])
  }

  predicate Flat(ts: seq<Token>) {
    forall k :: 0 <= k < |ts| ==> !ts[k].Group?
  }

  function ConcatTexts(ts: seq<Token>): string
    requires Flat(ts)
  {
    if |ts| == 0 then "" else TokenText(ts[0]) + ConcatTexts(ts[1..])
  }

  lemma {:induction false} SpacesConcat(a: string, b: string)
    ensures CountSpaces(a + b) == CountSpaces(a) + CountSpaces(b)
    ensures WithoutSpaces(a + b) == WithoutSpaces(a) + WithoutSpaces(b)
  {
    if |a| == 0 {
      assert a + b == b;
    } else {
      assert (a + b)[1..] == a[1..] + b;
      SpacesConcat(a[1..], b);
    }
  }

  lemma {:induction false} NoSpaces(a: string)
    requires ' ' !in a
    ensures CountSpaces(a) == 0 && WithoutSpaces(a) == a
  {
    if |a| > 0 {
      NoSpaces(a[1..]);
      assert a == [a[0]] + a[1..];
    }
  }

  /** The rendering of a token sequence that starts with a token other than a group. */
  lemma RenderFlatHead(ts: seq<Token>, prev: bool)
    requires |ts| > 0 && !ts[0].Group?
    ensures Render(ts, prev) ==
      (if prev && IdentLike(ts[0]) then " " else "") + TokenText(ts[0]) + Render(ts[1..], IdentLike(ts[0]))
  {
  }

  /** Tokens without groups whose own texts hold no space. */
  predicate SpaceFree(ts: seq<Token>) {
    Flat(ts) && forall k :: 0 <= k < |ts| ==> ' ' !in TokenText(ts[k])
  }

  /** The rendering inserts exactly one space per adjacent pair of ident-like tokens. */
  lemma {:induction false} SpacesOnlyBetweenIdents(ts: seq<Token>, prev: bool)
    requires SpaceFree(ts)
    ensures CountSpaces(Render(ts, prev)) == IdentPairs(ts, prev)
  {
    if |ts| > 0 {
      RenderHeadSpaces(ts, prev);
      SpacesOnlyBetweenIdents(ts[1..], IdentLike(ts[0]));
    }
  }

  /** With the spaces taken out, the rendering is the tokens' texts side by side. */
  lemma {:induction false} RenderIsTextsAndSpaces(ts: seq<Token>, prev: bool)
    requires SpaceFree(ts)
    ensures WithoutSpaces(Render(ts, prev)) == ConcatTexts(ts)
  {
    if |ts| > 0 {
      RenderHeadSpaces(ts, prev);
      RenderIsTextsAndSpaces(ts[1..], IdentLike(ts[0]));
    }
  }

  /** The first token's share of the rendering: its space, if any, then its own text. */
  lemma RenderHeadSpaces(ts: seq<Token>, prev: bool)
    requires |ts| > 0 && SpaceFree(ts)
    ensures SpaceFree(ts[1..])
    ensures CountSpaces(Render(ts, prev)) ==
      (if prev && IdentLike(ts[0]) then 1 else 0) + CountSpaces(Render(ts[1..], IdentLike(ts[0])))
    ensures WithoutSpaces(Render(ts, prev)) == TokenText(ts[0]) + WithoutSpaces(Render(ts[1..], IdentLike(ts[0])))
  {
    SpaceFreeTail(ts);
    RenderFlatHead(ts, prev);
    HeadShare(Render(ts, prev), prev && IdentLike(ts[0]), TokenText(ts[0]), Render(ts[1..], IdentLike(ts[0])));
  }

  /** An optional space, then a text without spaces, then more: the space counted, the text kept. */
  lemma HeadShare(r: string, spaced: bool, text: string, rest: string)
    requires ' ' !in text && r == (if spaced then " " else "") + text + rest
    ensures CountSpaces(r) == (if spaced then 1 else 0) + CountSpaces(rest)
    ensures WithoutSpaces(r) == text + WithoutSpaces(rest)
  {
    if spaced {
      assert r[0] == ' ' && r[1..] == text + rest;
    } else {
      assert r == text + rest;
    }
    PlainText(text, rest);
  }

  /** A text without spaces, then more: no new space, and the text kept. */
  lemma PlainText(text: string, rest: string)
    requires ' ' !in text
    ensures CountSpaces(text + rest) == CountSpaces(rest)
    ensures WithoutSpaces(text + rest) == text + WithoutSpaces(rest)
  {
    NoSpaces(text);
    SpacesConcat(text, rest);
  }

  lemma SpaceFreeTail(ts: seq<Token>)
    requires |ts| > 0 && SpaceFree(ts)
    ensures SpaceFree(ts[1..]) && !ts[0].Group? && ' ' !in TokenText(ts[0])
  {
    assert forall k :: 0 <= k < |ts[1..]| ==> ts[1..][k] == ts[k + 1];
  }


  // ------------------------------------------------------------------- expr

  /** How a punctuation token changes the bracket depth `expr` keeps. */
  function Delta(t: Token): int {
    if t.Punct? && Opens(t.ch) then 1
    else if t.Punct? && Closes(t.ch) then -1
    else 0
  }

  predicate Opens(p: char) { p == '{' || p == '(' || p == '[' || p == '<' }
  predicate Closes(p: char) { p == '}' || p == ')' || p == ']' || p == '>' }

  /** The bracket depth after the tokens `ts`, from `d0`. */
  function Depth(d0: int, ts: seq<Token>): int
    decreases |ts|
  {
    if |ts| == 0 then d0 else Depth(d0 + Delta(ts[0]), ts[1..])
  }

  /** The text `expr` collects for a token: a group rendered, anything else its own text. */
  function Piece(t: Token): string {
    match t
    case Punct(p) => [p]
    case Ident(n) => n
    case Literal(l) => l
    case Group(d, inner) => Open(d) + Render(inner, false) + Close(d)
  }

  function Pieces(ts: seq<Token>): string {
    if |ts| == 0 then "" else Piece(ts[0]) + Pieces(ts[1..])
  }

  predicate EndsWithColon(s: string) { |s| > 0 && s[|s| - 1] == ':' }

  /**
   * Whether the value after `@default-return` ends at token `t`, at bracket
   * depth `depth` with `acc` collected: a `,` at depth 0, or an identifier
   * or literal at depth 0 that does not continue a path (`::`).
   */
  predicate EndsExpr(t: Token, depth: int, acc: string) {
    depth == 0 && (t == Punct(',') || (IdentLike(t) && !EndsWithColon(acc)))
  }

  /**
   * The scan `expr` makes from token `j`: the position of the token that
   * ends the value and the text collected up to it, or `None` when the
   * input ends first.
   */
  function ScanExpr(ts: seq<Token>, j: nat, depth: int, acc: string): Option<(nat, string)>
    requires j <= |ts|
    decreases |ts| - j
  {
    if j == |ts| then None
    else if EndsExpr(ts[j], depth, acc) then Some((j, acc))
    else ScanExpr(ts, j + 1, depth + Delta(ts[j]), acc + Piece(ts[j]))
  }

  /**
   * Where the scan stops, the tokens passed over are balanced, the text
   * is exactly their pieces, and the stopping token ends the value.
   */
  lemma {:induction false} ScanStopsAtEnd(ts: seq<Token>, j: nat, depth: int, acc: string)
    requires j <= |ts|
    requires ScanExpr(ts, j, depth, acc).Some?
    ensures var (k, v) := ScanExpr(ts, j, depth, acc).value;
      j <= k < |ts| && v == acc + Pieces(ts[j..k]) && Depth(depth, ts[j..k]) == 0 && EndsExpr(ts[k], 0, v)
    decreases |ts| - j
  {
    var t := ts[j];
    if EndsExpr(t, depth, acc) {
      assert ts[j..j] == [];
    } else {
      var depth', acc' := depth + Delta(t), acc + Piece(t);
      assert ScanExpr(ts, j, depth, acc) == ScanExpr(ts, j + 1, depth', acc');
      ScanStopsAtEnd(ts, j + 1, depth', acc');
      var k := ScanExpr(ts, j, depth, acc).value.0;
      assert ts[j..k][1..] == ts[j + 1..k];
      assert ts[j..k][0] == t;
      assert Pieces(ts[j..k]) == Piece(t) + Pieces(ts[j + 1..k]);
    }
  }

  /** A scan that finds no end has passed no token that could end the value. */
  lemma {:induction false} ScanNoEnd(ts: seq<Token>, j: nat, depth: int, acc: string)
    requires j <= |ts|
    requires ScanExpr(ts, j, depth, acc).None?
    ensures forall k :: j <= k < |ts| ==> !EndsExpr(ts[k], Depth(depth, ts[j..k]), acc + Pieces(ts[j..k]))
    decreases |ts| - j
  {
    if j < |ts| {
      ScanNoEnd(ts, j + 1, depth + Delta(ts[j]), acc + Piece(ts[j]));
      forall k | j <= k < |ts|
        ensures !EndsExpr(ts[k], Depth(depth, ts[j..k]), acc + Pieces(ts[j..k]))
      {
        if k == j {
          assert ts[j..k] == [];
        } else {
          ScanShift(ts, j, k, depth, acc);
        }
      }
    }
  }

  /** Depth and text after `ts[j..k]` are those after `ts[j + 1..k]` started past `ts[j]`. */
  lemma ScanShift(ts: seq<Token>, j: nat, k: nat, depth: int, acc: string)
    requires j < k <= |ts|
    ensures Depth(depth, ts[j..k]) == Depth(depth + Delta(ts[j]), ts[j + 1..k])
    ensures acc + Pieces(ts[j..k]) == (acc + Piece(ts[j])) + Pieces(ts[j + 1..k])
  {
    assert ts[j..k][1..] == ts[j + 1..k];
    assert ts[j..k][0] == ts[j];
    assert Pieces(ts[j..k]) == Piece(ts[j]) + Pieces(ts[j + 1..k]);
  }

  /** The message for a value that runs to the end of the input, as written (see Findings). */
  function UnexpectedEndAsWritten(ret: string): string {
    "Unexpected end after `{ret}`. Did you forget a `,` after the @default-return value?"
  }

  /** The message as evidently intended: it quotes the value collected so far. */
  function UnexpectedEnd(ret: string): (msg: string)
    ensures OccursAt(msg, ret, |"Unexpected end after `"|)
  {
    var msg := "Unexpected end after `" + ret + "`. Did you forget a `,` after the @default-return value?";
    assert msg[22..22 + |ret|] == ret;
    msg
  }

  /**
   * The message as written is the same whatever the value: for the values
   * `1` and `2` it is one string, while the intended messages differ.
   */
  lemma UnexpectedEndIgnoresValue()
    ensures UnexpectedEndAsWritten("1") == UnexpectedEndAsWritten("2")
    ensures UnexpectedEnd("1") != UnexpectedEnd("2")
  {
    assert UnexpectedEnd("1")[22..23] == "1";
    assert UnexpectedEnd("2")[22..23] == "2";
  }

  /**
   * What the loop of `expr` answers from token `j`: the value and the
   * position of the token that ends it, or, when the input ends first,
   * the error quoting everything collected.
   */
  function ExprRestAt(ts: seq<Token>, j: nat, depth: int, acc: string): (r: Result<(string, nat), string>)
    requires j <= |ts|
    ensures r.Ok? ==> j <= r.value.1 < |ts|
  {
    match ScanExpr(ts, j, depth, acc)
    case Some((k, v)) => ScanStopsAtEnd(ts, j, depth, acc); Ok((v, k))
    case None => Err(UnexpectedEnd(TextFrom(ts, j, acc)))
  }

  /** The text `expr` has collected when the tokens run out: `acc`, then every token's text from `j` on. */
  function TextFrom(ts: seq<Token>, j: nat, acc: string): string
    requires j <= |ts|
    decreases |ts| - j
  {
    if j == |ts| then acc else TextFrom(ts, j + 1, acc + Piece(ts[j]))
  }

  /** That text is `acc` followed by the pieces of the remaining tokens. */
  lemma {:induction false} TextFromPieces(ts: seq<Token>, j: nat, acc: string)
    requires j <= |ts|
    ensures TextFrom(ts, j, acc) == acc + Pieces(ts[j..])
    decreases |ts| - j
  {
    if j < |ts| {
      TextFromPieces(ts, j + 1, acc + Piece(ts[j]));
      assert ts[j..][1..] == ts[j + 1..];
      assert acc + Piece(ts[j]) + Pieces(ts[j + 1..]) == acc + (Piece(ts[j]) + Pieces(ts[j + 1..]));
    } else {
      assert ts[j..] == [];
    }
  }

  /**
   * The loop of `expr` after its first token: collects tokens, tracking
   * the bracket depth, until the value ends; the end token is not taken.
   */
  method ExprRest(c: TokenCursor, r0: string, d0: int) returns (r: Result<string, string>)
    requires c.Valid()
    modifies c
    ensures c.Valid()
    ensures var scan := ScanExpr(c.tokens, old(c.pos), d0, r0);
      r.Ok? <==> scan.Some?
    ensures var scan := ScanExpr(c.tokens, old(c.pos), d0, r0);
      r.Ok? ==> scan == Some((c.pos, r.value))
    ensures Yields(r, ExprRestAt(c.tokens, old(c.pos), d0, r0), c.pos)
  {
    ghost var ts := c.tokens;
    var ret := r0;
    var total := d0;
    while true
      invariant c.Valid() && c.tokens == ts && old(c.pos) <= c.pos
      invariant ScanExpr(ts, old(c.pos), d0, r0) == ScanExpr(ts, c.pos, total, ret)
      invariant TextFrom(ts, old(c.pos), r0) == TextFrom(ts, c.pos, ret)
      decreases |ts| - c.pos
    {
      var next := c.Peek();
      if next.None? {
        assert ScanExpr(ts, old(c.pos), d0, r0).None?;
        return Err(UnexpectedEnd(ret));
      }
      var stop, total', ret' := ExprTurn(next.value, total, ret);
      if stop {
        return Ok(ret);
      }
      total, ret := total', ret';
      var _ := c.Next();
    }
  }

  /**
   * One token of `expr`'s loop: whether it ends the value and, when it
   * does not, the depth and text after taking it.
   */
  method ExprTurn(t: Token, total: int, ret: string) returns (stop: bool, total': int, ret': string)
    ensures stop == EndsExpr(t, total, ret)
    ensures !stop ==> total' == total + Delta(t) && ret' == ret + Piece(t)
  {
    stop, total', ret' := false, total, ret;
    match t {
      case Punct(p) =>
        if Opens(p) {
          total' := total + 1;
        } else if Closes(p) {
          total' := total - 1;
        } else if p == ',' && total == 0 {
          return true, total, ret;
        }
        ret' := ret + [p];
      case Group(d, inner) =>
        var g := GroupToString(d, inner);
        ret' := ret + g;
      case _ =>
        if total == 0 && !(|ret| > 0 && ret[|ret| - 1] == ':') {
          return true, total, ret;
        }
        ret' := ret + Piece(t);
    }
  }

  /**
   * What `expr` answers at token `i`: a literal or identifier starts the
   * value, an opening bracket starts it one level deep (without its text),
   * a group is the whole value; anything else, and the end, is an error.
   */
  function ExprAt(ts: seq<Token>, i: nat): (r: Result<(string, nat), string>)
    requires i <= |ts|
    ensures r.Ok? ==> i < r.value.1 <= |ts|
  {
    if i == |ts| then Err("Unexpected end after `@default-return`")
    else match ts[i]
      case Literal(l) => ExprRestAt(ts, i + 1, 0, l)
      case Ident(n) => ExprRestAt(ts, i + 1, 0, n)
      case Group(_, _) => Ok((Piece(ts[i]), i + 1))
      case Punct(p) =>
        if p == '[' || p == '{' || p == '(' then ExprRestAt(ts, i + 1, 1, "")
        else Err("Unexpected token `" + [p] + "` after `@default-return`")
  }

  /**
   * `expr`: the value after `@default-return`. A literal or identifier
   * starts it, an opening bracket starts it one level deep, a group is
   * the whole value; anything else is an error.
   */
  method Expr(c: TokenCursor) returns (r: Result<string, string>)
    requires c.Valid()
    modifies c
    ensures c.Valid()
    ensures old(c.pos) == |c.tokens| ==> r.Err?
    ensures old(c.pos) < |c.tokens| && c.tokens[old(c.pos)].Group? ==>
      r == Ok(Piece(c.tokens[old(c.pos)]))
    ensures old(c.pos) < |c.tokens| && c.tokens[old(c.pos)].Punct? && c.tokens[old(c.pos)].ch !in "[{(" ==> r.Err?
    ensures old(c.pos) < |c.tokens| && IdentLike(c.tokens[old(c.pos)]) ==>
      (r.Ok? <==> ScanExpr(c.tokens, old(c.pos) + 1, 0, Piece(c.tokens[old(c.pos)])).Some?)
    ensures old(c.pos) < |c.tokens| && IdentLike(c.tokens[old(c.pos)]) && r.Ok? ==>
      ScanExpr(c.tokens, old(c.pos) + 1, 0, Piece(c.tokens[old(c.pos)])) == Some((c.pos, r.value))
    ensures Yields(r, ExprAt(c.tokens, old(c.pos)), c.pos)
  {
    var first := c.Next();
    if first.None? {
      return Err("Unexpected end after `@default-return`");
    }
    match first.value
    case Literal(l) => r := ExprRest(c, l, 0);
    case Ident(i) => r := ExprRest(c, i, 0);
    case Group(d, inner) =>
      var g := GroupToString(d, inner);
      r := Ok(g);
    case Punct(p) =>
      if p == '[' || p == '{' || p == '(' {
        r := ExprRest(c, "", 1);
      } else {
        r := Err("Unexpected token `" + [p] + "` after `@default-return`");
      }
  }
}
