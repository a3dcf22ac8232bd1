/**
 * glib-macros/src/clone_block_attribute.rs: the `#[clone]` and `#[closure]`
 * closure attributes. Captures are collected from attributes on closure
 * parameters, given a default upgrade-failure action, checked for
 * duplicates, and the parameters after a `#[rest]` parameter are dropped.
 * Syntax trees are reduced to what these rules look at; the macro's
 * shared error collector is the `errors` field of a `Visitor`.
 */
module CloneBlock {
  import opened Wrappers

  // ------------------------------------------------------------ expressions

  /** The expression forms `is_simple_expr` distinguishes; everything else is `OtherExpr`. */
  datatype Expr =
    | Cast(operand: Expr)
    | Field(operand: Expr, member: string)
    | Index(operand: Expr, index: Expr)
    | Lit(text: string)
    | Paren(operand: Expr)
    | PathExpr(path: string)
    | Reference(operand: Expr)
    | TypeAscribed(operand: Expr)
    | OtherExpr

  /**
   * A simple expression: a literal or a path, seen through casts, field
   * accesses, parentheses, references and type ascriptions; an index
   * expression when both its sides are simple.
   */
  predicate Simple(e: Expr) {
    match e
    case Lit(_) => true
    case PathExpr(_) => true
    case OtherExpr => false
    case Index(a, i) => Simple(a) && Simple(i)
    case _ => Simple(e.operand)
  }

  function Size(e: Expr): nat {
    match e
    case Lit(_) => 1
    case PathExpr(_) => 1
    case OtherExpr => 1
    case Index(a, i) => 1 + Size(a) + Size(i)
    case _ => 1 + Size(e.operand)
  }

  /**
   * `is_simple_expr`: walks down the pass-through forms in a loop and only
   * recurses for the two sides of an index expression.
   */
  method IsSimpleExpr(e: Expr) returns (b: bool)
    ensures b == Simple(e)
    decreases Size(e)
  {
    var cur := e;
    while true
      invariant Simple(cur) == Simple(e)
      invariant Size(cur) <= Size(e)
      decreases Size(cur)
    {
      match cur
      case Lit(_) => return true;
      case PathExpr(_) => return true;
      case OtherExpr => return false;
      case Index(a, i) =>
        b := IsSimpleExpr(a);
        if b {
          b := IsSimpleExpr(i);
        }
        return;
      case _ => cur := cur.operand;
    }
  }

  /** A simple expression holds no form other than the ones listed. */
  lemma {:induction false} SimpleHasNoOther(e: Expr)
    requires Simple(e)
    ensures e != OtherExpr
    ensures e.Index? ==> Simple(e.operand) && Simple(e.index)
    ensures e.Cast? || e.Field? || e.Paren? || e.Reference? || e.TypeAscribed? ==> Simple(e.operand)
  {
  }

  // --------------------------------------------------------------- captures

  /** `UpgradeFailAction`: what a weak capture does when the object is gone. */
  datatype FailAction =
    | Unspecified
    | DefaultValue(value: Expr)
    | AllowNone
    | Panic
    | Return(result: Option<Expr>)

  /** `Capture`: a name or a source expression, and for a weak capture its own fail action. */
  datatype Capture =
    | Strong(ident: Option<string>, from: Option<Expr>)
    | Weak(ident: Option<string>, from: Option<Expr>, or: Option<FailAction>)
    | Watch(ident: Option<string>, from: Option<Expr>)

  /**
   * `set_default_fail`: gives the closure's default action to a weak
   * capture that has none of its own; any other capture is left as it is.
   */
  function SetDefaultFail(c: Capture, action: FailAction): (r: Capture)
    ensures r.ident == c.ident && r.from == c.from
    ensures c.Weak? && c.or.None? ==> r == Weak(c.ident, c.from, Some(action))
    ensures !(c.Weak? && c.or.None?) ==> r == c
  {
    if c.Weak? && c.or.None? then c.(or := Some(action)) else c
  }

  /** After a default is applied every weak capture has an action, and a second default changes nothing. */
  lemma DefaultFailSettles(c: Capture, a: FailAction, b: FailAction)
    ensures SetDefaultFail(c, a).Weak? ==> SetDefaultFail(c, a).or.Some?
    ensures SetDefaultFail(SetDefaultFail(c, a), b) == SetDefaultFail(c, a)
  {
  }

  /** The loop that applies the default action to every capture in place. */
  method SetDefaultFails(captures: seq<Capture>, action: FailAction) returns (out: seq<Capture>)
    ensures |out| == |captures|
    ensures forall i :: 0 <= i < |out| ==> out[i] == SetDefaultFail(captures[i], action)
  {
    out := captures;
    var i := 0;
    while i < |out|
      invariant 0 <= i <= |out| == |captures|
      invariant forall k :: 0 <= k < i ==> out[k] == SetDefaultFail(captures[k], action)
      invariant forall k :: i <= k < |out| ==> out[k] == captures[k]
    {
      out := out[i := SetDefaultFail(out[i], action)];
      i := i + 1;
    }
  }

  // ---------------------------------------------------- parameters and attrs

  /** A closure parameter pattern: an identifier, `_`, a pattern with sub-patterns, or another pattern. */
  datatype Pat = PIdent(name: string) | PWild | PNested(elems: seq<Pat>) | POther

  /** The tokens after an attribute's path, as far as the capture parsers read them. */
  datatype AttrArgs =
    | NoTokens
    | Parenthesized(source: Option<Expr>, action: Option<FailAction>)
    | BadTokens

  datatype Attr = Attr(name: string, args: AttrArgs)

  datatype Input = Input(attrs: seq<Attr>, pat: Pat)

  /** `extract_idents`: the identifiers a pattern binds. */
  function Idents(p: Pat): set<string>
    decreases p, 1
  {
    match p
    case PIdent(n) => {n}
    case PNested(elems) => IdentsOfAll(elems)
    case _ => {}
  }

  function IdentsOfAll(ps: seq<Pat>): set<string>
    decreases ps, 0
  {
    if |ps| == 0 then {} else Idents(ps[0]) + IdentsOfAll(ps[1..])
  }

  /** Every identifier bound by the closure's parameters. */
  function InputNames(inputs: seq<Input>): set<string> {
    if |inputs| == 0 then {} else InputNames(inputs[..|inputs| - 1]) + Idents(inputs[|inputs| - 1].pat)
  }

  predicate HasAttr(attrs: seq<Attr>, name: string) {
    exists i :: 0 <= i < |attrs| && attrs[i].name == name
  }

  /** The position of the first attribute with this name. */
  function FirstNamed(attrs: seq<Attr>, name: string): (r: Option<nat>)
    ensures r.Some? <==> HasAttr(attrs, name)
    ensures r.Some? ==> r.value < |attrs| && attrs[r.value].name == name
    ensures r.Some? ==> forall k :: 0 <= k < r.value ==> attrs[k].name != name
  {
    if |attrs| == 0 then None
    else if attrs[0].name == name then Some(0)
    else match FirstNamed(attrs[1..], name)
      case None => None
      case Some(i) => Some(i + 1)
  }

  function RemoveAt<T>(xs: seq<T>, i: nat): (r: seq<T>)
    requires i < |xs|
    ensures |r| == |xs| - 1
  {
    xs[..i] + xs[i + 1..]
  }

  /** `extract_attr`: takes out the first attribute with this name, if any. */
  function ExtractAttr(attrs: seq<Attr>, name: string): (r: (Option<Attr>, seq<Attr>))
    ensures r.0.Some? <==> HasAttr(attrs, name)
    ensures r.0.Some? ==> r.0.value.name == name && |r.1| == |attrs| - 1
    ensures r.0.None? ==> r.1 == attrs
  {
    match FirstNamed(attrs, name)
    case None => (None, attrs)
    case Some(i) => (Some(attrs[i]), RemoveAt(attrs, i))
  }

  function Repeat(msg: string, n: nat): (r: seq<string>)
    ensures |r| == n && forall k :: 0 <= k < n ==> r[k] == msg
  {
    if n == 0 then [] else [msg] + Repeat(msg, n - 1)
  }

  const UNEXPECTED_TOKEN := "unexpected token"
  const EXPECTED_PARENS := "expected parentheses"

  /** `parse_strong`: nothing, `()`, or one expression in parentheses. */
  function ParseStrong(args: AttrArgs): Result<Option<Expr>, string> {
    match args
    case NoTokens => Ok(None)
    case Parenthesized(from, None) => Ok(from)
    case Parenthesized(_, Some(_)) => Err(UNEXPECTED_TOKEN)
    case BadTokens => Err(EXPECTED_PARENS)
  }

  /** `parse_weak`: an optional expression and an optional fail action, in parentheses. */
  function ParseWeak(args: AttrArgs): Result<(Option<Expr>, Option<FailAction>), string> {
    match args
    case NoTokens => Ok((None, None))
    case Parenthesized(from, or) => Ok((from, or))
    case BadTokens => Err(EXPECTED_PARENS)
  }

  datatype Mode = CloneMode | ClosureMode | ClosureAsyncMode

  datatype CaptureKind = StrongKind | WeakKind | WatchKind

  function KindName(k: CaptureKind): string {
    match k case StrongKind => "strong" case WeakKind => "weak" case WatchKind => "watch"
  }

  const EXTRA_ATTRS := "Extra attributes not allowed on #[strong] or #[weak] or #[watch] capture"
  const PATTERN_NOT_IDENT := "Pattern for captured variable must be an identifier"

  function UnnamedCapture(k: CaptureKind): string {
    "capture must be named or provide a source expression using #[" + KindName(k) + "(...)]"
  }

  /** What `get_captures` does with one parameter. */
  datatype Step = Step(keep: bool, capture: Option<Capture>, errs: seq<string>)

  /** `validate_pat_ident`, with `_` allowed: the capture's name, or an error. */
  function PatIdent(p: Pat): (Option<string>, seq<string>) {
    match p
    case PWild => (None, [])
    case PIdent(n) => (Some(n), [])
    case _ => (None, [PATTERN_NOT_IDENT])
  }

  /**
   * One capture attribute taken from a parameter: its arguments parsed,
   * the parameter's pattern turned into the capture's name, and the
   * capture made if it has a name or a source expression.
   */
  function CaptureFrom(k: CaptureKind, attr: Attr, rest: seq<Attr>, p: Pat): (s: Step)
    ensures !s.keep
    ensures s.capture.Some? ==> s.capture.value.ident.Some? || s.capture.value.from.Some?
    ensures s.capture.Some? ==> (s.capture.value.Strong? <==> k == StrongKind)
    ensures s.capture.Some? ==> (s.capture.value.Weak? <==> k == WeakKind)
    ensures s.capture.Some? ==> (s.capture.value.Watch? <==> k == WatchKind)
    ensures s.capture.None? ==> UnnamedCapture(k) in s.errs || PATTERN_NOT_IDENT in s.errs
    ensures |rest| <= |s.errs| && s.errs[..|rest|] == Repeat(EXTRA_ATTRS, |rest|)
  {
    var extra := Repeat(EXTRA_ATTRS, |rest|);
    var parsed: (Option<Expr>, Option<FailAction>, seq<string>) :=
      if k == WeakKind then
        (match ParseWeak(attr.args) case Ok((f, o)) => (f, o, []) case Err(e) => (None, None, [e]))
      else
        (match ParseStrong(attr.args) case Ok(f) => (f, None, []) case Err(e) => (None, None, [e]));
    var (from, or, parseErrs) := parsed;
    var (ident, patErrs) := PatIdent(p);
    if ident.Some? || from.Some? then
      var c := match k
        case StrongKind => Strong(ident, from)
        case WeakKind => Weak(ident, from, or)
        case WatchKind => Watch(ident, from);
      Step(false, Some(c), extra + parseErrs + patErrs)
    else
      Step(false, None, extra + parseErrs + patErrs + [UnnamedCapture(k)])
  }

  /**
   * One turn of `get_captures`' loop: `#[strong]` is looked for first, then
   * `#[weak]`, then (except for `#[clone]`) `#[watch]`; a parameter with
   * none of them stays a parameter.
   */
  function CaptureStep(input: Input, mode: Mode): (s: Step) {
    var (strong, a1) := ExtractAttr(input.attrs, "strong");
    if strong.Some? then CaptureFrom(StrongKind, strong.value, a1, input.pat)
    else
      var (weak, a2) := ExtractAttr(input.attrs, "weak");
      if weak.Some? then CaptureFrom(WeakKind, weak.value, a2, input.pat)
      else if mode != CloneMode then
        var (watch, a3) := ExtractAttr(input.attrs, "watch");
        if watch.Some? then CaptureFrom(WatchKind, watch.value, a3, input.pat)
        else Step(true, None, [])
      else Step(true, None, [])
  }

  /** `#[strong]` wins over `#[weak]`, which wins over `#[watch]`; `#[watch]` is not read for `#[clone]`. */
  lemma CapturePrecedence(input: Input, mode: Mode)
    ensures var s := CaptureStep(input, mode);
      s.keep <==> (!HasAttr(input.attrs, "strong") && !HasAttr(input.attrs, "weak")
        && (mode == CloneMode || !HasAttr(input.attrs, "watch")))
    ensures var s := CaptureStep(input, mode);
      s.capture.Some? && HasAttr(input.attrs, "strong") ==> s.capture.value.Strong?
    ensures var s := CaptureStep(input, mode);
      s.capture.Some? && s.capture.value.Weak? ==> !HasAttr(input.attrs, "strong") && HasAttr(input.attrs, "weak")
    ensures var s := CaptureStep(input, mode);
      s.capture.Some? && s.capture.value.Watch? ==>
        mode != CloneMode && !HasAttr(input.attrs, "strong") && !HasAttr(input.attrs, "weak")
    ensures CaptureStep(input, mode).keep ==> CaptureStep(input, mode) == Step(true, None, [])
  {
  }

  /** What `get_captures` leaves: the remaining parameters, the captures, the errors. */
  datatype Scan = Scan(kept: seq<Input>, captures: seq<Capture>, errs: seq<string>)

  function OptSeq<T>(o: Option<T>): seq<T> {
    if o.Some? then [o.value] else []
  }

  /** `get_captures` over the parameters in order. */
  function Captures(inputs: seq<Input>, mode: Mode): Scan {
    if |inputs| == 0 then Scan([], [], [])
    else
      var last := inputs[|inputs| - 1];
      NextScan(Captures(inputs[..|inputs| - 1], mode), last, CaptureStep(last, mode))
  }

  /** The scan after one more parameter. */
  function NextScan(before: Scan, input: Input, s: Step): Scan {
    Scan(before.kept + (if s.keep then [input] else []), before.captures + OptSeq(s.capture), before.errs + s.errs)
  }

  /**
   * Every capture has a name or a source expression, `#[clone]` never
   * makes a watch capture, and no parameter that stays carries a capture
   * attribute.
   */
  lemma {:induction false} CapturesWellFormed(inputs: seq<Input>, mode: Mode)
    ensures var s := Captures(inputs, mode);
      forall c :: c in s.captures ==> c.ident.Some? || c.from.Some?
    ensures var s := Captures(inputs, mode);
      mode == CloneMode ==> forall c :: c in s.captures ==> !c.Watch?
    ensures var s := Captures(inputs, mode);
      forall p :: p in s.kept ==> !HasAttr(p.attrs, "strong") && !HasAttr(p.attrs, "weak")
    ensures var s := Captures(inputs, mode);
      |s.kept| + |s.captures| <= |inputs|
  {
    if |inputs| > 0 {
      CapturesWellFormed(inputs[..|inputs| - 1], mode);
      CapturePrecedence(inputs[|inputs| - 1], mode);
    }
  }

  // ------------------------------------------------------ validate_captures

  const ONE_WATCH := "Only one #[watch] attribute is allowed on closure"

  function UsedTwice(ident: string): string {
    "Identifier `" + ident + "` is used more than once in this parameter list"
  }

  /** The state of `validate_captures`' loop: errors so far, whether a watch was seen, the names taken. */
  datatype Check = Check(errs: seq<string>, hasWatch: bool, names: set<string>)

  function CheckCaptures(captures: seq<Capture>, names0: set<string>): Check {
    if |captures| == 0 then Check([], false, names0)
    else NextCheck(CheckCaptures(captures[..|captures| - 1], names0), captures[|captures| - 1])
  }

  /** One turn of `validate_captures`' second loop. */
  function NextCheck(before: Check, c: Capture): Check {
    var watchErr := if c.Watch? && before.hasWatch then [ONE_WATCH] else [];
    var hasWatch := before.hasWatch || c.Watch?;
    var identErr := if c.ident.Some? && c.ident.value in before.names then [UsedTwice(c.ident.value)] else [];
    var names := if c.ident.Some? then before.names + {c.ident.value} else before.names;
    Check(before.errs + watchErr + identErr, hasWatch, names)
  }

  function WatchCount(captures: seq<Capture>): nat {
    if |captures| == 0 then 0
    else WatchCount(captures[..|captures| - 1]) + (if captures[|captures| - 1].Watch? then 1 else 0)
  }

  function CaptureNames(captures: seq<Capture>): set<string> {
    if |captures| == 0 then {}
    else
      var c := captures[|captures| - 1];
      CaptureNames(captures[..|captures| - 1]) + (if c.ident.Some? then {c.ident.value} else {})
  }

  /** No two captures share a name, and no capture takes a parameter's name. */
  predicate NamesDistinct(captures: seq<Capture>, names0: set<string>) {
    (forall i :: 0 <= i < |captures| && captures[i].ident.Some? ==> captures[i].ident.value !in names0)
    && (forall i, j :: 0 <= i < j < |captures| && captures[i].ident.Some? && captures[j].ident.Some? ==>
          captures[i].ident != captures[j].ident)
  }

  lemma {:induction false} CaptureNamesAre(captures: seq<Capture>, x: string)
    ensures x in CaptureNames(captures) <==> exists i :: 0 <= i < |captures| && captures[i].ident == Some(x)
  {
    if |captures| > 0 {
      var init := captures[..|captures| - 1];
      CaptureNamesAre(init, x);
      if x in CaptureNames(init) {
        var i :| 0 <= i < |init| && init[i].ident == Some(x);
        assert captures[i].ident == Some(x);
      }
      if exists i :: 0 <= i < |captures| && captures[i].ident == Some(x) {
        var i :| 0 <= i < |captures| && captures[i].ident == Some(x);
        if i < |init| {
          assert init[i].ident == Some(x);
        }
      }
    }
  }

  lemma {:induction false} CheckState(captures: seq<Capture>, names0: set<string>)
    ensures CheckCaptures(captures, names0).names == names0 + CaptureNames(captures)
    ensures CheckCaptures(captures, names0).hasWatch <==> WatchCount(captures) > 0
  {
    if |captures| > 0 {
      CheckState(captures[..|captures| - 1], names0);
    }
  }

  /**
   * `validate_captures` reports nothing exactly when there is at most one
   * watch capture and every capture's name is new.
   */
  lemma {:induction false} ValidateIff(captures: seq<Capture>, names0: set<string>)
    ensures CheckCaptures(captures, names0).errs == [] <==>
      WatchCount(captures) <= 1 && NamesDistinct(captures, names0)
  {
    if |captures| > 0 {
      var init := captures[..|captures| - 1];
      var c := captures[|captures| - 1];
      ValidateIff(init, names0);
      CheckState(init, names0);
      if c.ident.Some? {
        CaptureNamesAre(init, c.ident.value);
      }
      assert forall i :: 0 <= i < |init| ==> init[i] == captures[i];
      if NamesDistinct(captures, names0) {
        assert NamesDistinct(init, names0);
      }
      if NamesDistinct(init, names0) && (c.ident.Some? ==> c.ident.value !in names0 + CaptureNames(init)) {
        forall i, j | 0 <= i < j < |captures| && captures[i].ident.Some? && captures[j].ident.Some?
          ensures captures[i].ident != captures[j].ident
        {
        }
      }
    }
  }

  // ---------------------------------------------- extract_default_fail_action

  const DUPLICATE_DEFAULT := "Duplicate default action specified"

  /** The error `syn::parse::Nothing` gives for tokens after `#[default_panic]` or `#[default_allow_none]`. */
  function NothingErrs(args: AttrArgs): (errs: seq<string>)
    ensures errs == [] <==> args == NoTokens
  {
    if args == NoTokens then [] else [UNEXPECTED_TOKEN]
  }

  /** `#[default_return]` or `#[default_return(expr)]`. */
  function ParseReturn(args: AttrArgs): Result<Option<Expr>, string> {
    match args
    case NoTokens => Ok(None)
    case Parenthesized(Some(e), None) => Ok(Some(e))
    case Parenthesized(None, _) => Err("expected an expression")
    case Parenthesized(Some(_), Some(_)) => Err(UNEXPECTED_TOKEN)
    case BadTokens => Err(EXPECTED_PARENS)
  }

  /** The attributes left, the action, and the errors `extract_default_fail_action` produces. */
  datatype Defaults = Defaults(attrs: seq<Attr>, action: FailAction, errs: seq<string>)

  /**
   * `extract_default_fail_action`: takes `#[default_panic]` attributes
   * first, then `#[default_allow_none]`, then `#[default_return]`; each one
   * replaces the action, and one that finds an action already set is a
   * duplicate. A `#[default_return]` that does not parse stops the loop.
   */
  function DefaultsFrom(attrs: seq<Attr>, action: FailAction): Defaults
    decreases |attrs|, 1
  {
    var p := FirstNamed(attrs, "default_panic");
    var n := FirstNamed(attrs, "default_allow_none");
    var r := FirstNamed(attrs, "default_return");
    if p.Some? then
      TakeAction(RemoveAt(attrs, p.value), action, Panic, NothingErrs(attrs[p.value].args))
    else if n.Some? then
      TakeAction(RemoveAt(attrs, n.value), action, AllowNone, NothingErrs(attrs[n.value].args))
    else if r.Some? then
      match ParseReturn(attrs[r.value].args)
      case Ok(v) => TakeAction(RemoveAt(attrs, r.value), action, Return(v), [])
      case Err(e) => Defaults(RemoveAt(attrs, r.value), action, [e])
    else Defaults(attrs, action, [])
  }

  function TakeAction(rest: seq<Attr>, action: FailAction, next: FailAction, errs: seq<string>): Defaults
    decreases |rest| + 1, 0
  {
    var dup := if action != Unspecified then [DUPLICATE_DEFAULT] else [];
    var after := DefaultsFrom(rest, next);
    Defaults(after.attrs, after.action, errs + dup + after.errs)
  }


  predicate IsDefaultAttr(a: Attr) {
    a.name == "default_panic" || a.name == "default_allow_none" || a.name == "default_return"
  }

  lemma DefaultPresent(attrs: seq<Attr>, k: nat)
    requires k < |attrs| && IsDefaultAttr(attrs[k])
    ensures HasAttr(attrs, "default_panic") || HasAttr(attrs, "default_allow_none") || HasAttr(attrs, "default_return")
  {
    assert HasAttr(attrs, attrs[k].name);
  }

  /** Without any default attribute nothing changes. */
  lemma NoDefaultsNoChange(attrs: seq<Attr>, action: FailAction)
    requires !HasAttr(attrs, "default_panic") && !HasAttr(attrs, "default_allow_none")
    requires !HasAttr(attrs, "default_return")
    ensures DefaultsFrom(attrs, action) == Defaults(attrs, action, [])
  {
  }

  /** The arguments of the last attribute with this name. */
  function LastArgs(attrs: seq<Attr>, name: string): (r: Option<AttrArgs>)
    ensures r.Some? <==> HasAttr(attrs, name)
  {
    if |attrs| == 0 then None
    else if attrs[|attrs| - 1].name == name then Some(attrs[|attrs| - 1].args)
    else
      var r := LastArgs(attrs[..|attrs| - 1], name);
      assert HasAttr(attrs, name) ==> HasAttr(attrs[..|attrs| - 1], name) by {
        if HasAttr(attrs, name) {
          var k :| 0 <= k < |attrs| && attrs[k].name == name;
          assert attrs[..|attrs| - 1][k].name == name;
        }
      }
      r
  }

  lemma InRemoveAt<T>(xs: seq<T>, i: nat, j: nat)
    requires i < |xs| && j < |xs| && i != j
    ensures xs[j] in RemoveAt(xs, i)
  {
    if j < i {
      assert RemoveAt(xs, i)[j] == xs[j];
    } else {
      assert RemoveAt(xs, i)[j - 1] == xs[j];
    }
  }

  lemma FromRemoveAt<T>(xs: seq<T>, i: nat, x: T)
    requires i < |xs| && x in RemoveAt(xs, i)
    ensures x in xs
  {
    var k :| 0 <= k < |RemoveAt(xs, i)| && RemoveAt(xs, i)[k] == x;
    if k < i {
      assert xs[k] == x;
    } else {
      assert xs[k + 1] == x;
    }
  }

  /** Taking out an attribute of another name keeps whether this name is present. */
  lemma RemoveOtherHas(attrs: seq<Attr>, i: nat, name: string)
    requires i < |attrs| && attrs[i].name != name
    ensures HasAttr(RemoveAt(attrs, i), name) <==> HasAttr(attrs, name)
  {
    var r := RemoveAt(attrs, i);
    if HasAttr(attrs, name) {
      var k :| 0 <= k < |attrs| && attrs[k].name == name;
      InRemoveAt(attrs, i, k);
      var m :| 0 <= m < |r| && r[m] == attrs[k];
    }
    if HasAttr(r, name) {
      var k :| 0 <= k < |r| && r[k].name == name;
      assert r[k] in r;
      FromRemoveAt(attrs, i, r[k]);
    }
  }

  lemma RemoveAtLast<T>(xs: seq<T>, i: nat)
    requires i == |xs| - 1
    ensures RemoveAt(xs, i) == xs[..|xs| - 1]
  {
  }

  /** Below the last element, taking out `i` commutes with dropping the last element. */
  lemma RemoveAtInit<T>(xs: seq<T>, i: nat)
    requires i < |xs| - 1
    ensures RemoveAt(xs, i)[..|xs| - 2] == RemoveAt(xs[..|xs| - 1], i)
    ensures RemoveAt(xs, i)[|xs| - 2] == xs[|xs| - 1]
  {
    var init := xs[..|xs| - 1];
    assert init[..i] == xs[..i];
    assert init[i + 1..] == xs[i + 1..|xs| - 1];
    assert xs[i + 1..] == xs[i + 1..|xs| - 1] + [xs[|xs| - 1]];
  }

  lemma LastArgsDrop(attrs: seq<Attr>, name: string)
    requires |attrs| > 0 && attrs[|attrs| - 1].name != name
    ensures LastArgs(attrs, name) == LastArgs(attrs[..|attrs| - 1], name)
  {
  }

  /** Taking out an attribute of another name keeps this name's attributes and the last of them. */
  lemma {:induction false} RemoveOther(attrs: seq<Attr>, i: nat, name: string)
    requires i < |attrs| && attrs[i].name != name
    ensures HasAttr(RemoveAt(attrs, i), name) <==> HasAttr(attrs, name)
    ensures LastArgs(RemoveAt(attrs, i), name) == LastArgs(attrs, name)
    decreases |attrs|
  {
    RemoveOtherHas(attrs, i, name);
    var r := RemoveAt(attrs, i);
    var last := attrs[|attrs| - 1];
    if i == |attrs| - 1 {
      RemoveAtLast(attrs, i);
      LastArgsDrop(attrs, name);
    } else {
      var init := attrs[..|attrs| - 1];
      RemoveAtInit(attrs, i);
      RemoveOther(init, i, name);
      if last.name != name {
        LastArgsDrop(r, name);
        LastArgsDrop(attrs, name);
      }
    }
  }

  lemma HasAttrInit(attrs: seq<Attr>, name: string)
    requires |attrs| > 0 && attrs[|attrs| - 1].name != name
    ensures HasAttr(attrs, name) <==> HasAttr(attrs[..|attrs| - 1], name)
  {
    if HasAttr(attrs, name) {
      var k :| 0 <= k < |attrs| && attrs[k].name == name;
      assert attrs[..|attrs| - 1][k].name == name;
    }
    if HasAttr(attrs[..|attrs| - 1], name) {
      var k :| 0 <= k < |attrs| - 1 && attrs[..|attrs| - 1][k].name == name;
      assert attrs[k].name == name;
    }
  }

  /** The first attribute of a name is still the first once the last attribute, after it, is dropped. */
  lemma FirstNamedInit(attrs: seq<Attr>, name: string, i: nat)
    requires FirstNamed(attrs, name) == Some(i) && i < |attrs| - 1
    ensures FirstNamed(attrs[..|attrs| - 1], name) == Some(i)
  {
    var init := attrs[..|attrs| - 1];
    assert init[i].name == name;
    var j := FirstNamed(init, name).value;
    assert init[j] == attrs[j];
  }

  /** Taking out the first of several attributes of a name keeps the last of them. */
  lemma {:induction false} RemoveFirst(attrs: seq<Attr>, name: string, i: nat)
    requires FirstNamed(attrs, name) == Some(i)
    ensures HasAttr(RemoveAt(attrs, i), name) ==> LastArgs(RemoveAt(attrs, i), name) == LastArgs(attrs, name)
    ensures !HasAttr(RemoveAt(attrs, i), name) ==> LastArgs(attrs, name) == Some(attrs[i].args)
    decreases |attrs|
  {
    if i == |attrs| - 1 {
      RemoveFirstAtEnd(attrs, name, i);
    } else if attrs[|attrs| - 1].name == name {
      RemoveFirstBeforeLast(attrs, name, i);
    } else {
      var init := attrs[..|attrs| - 1];
      var r := RemoveAt(attrs, i);
      RemoveAtInit(attrs, i);
      FirstNamedInit(attrs, name, i);
      HasAttrInit(r, name);
      RemoveFirst(init, name, i);
      LastArgsDrop(r, name);
      LastArgsDrop(attrs, name);
      assert attrs[i] == init[i];
    }
  }

  /** The first attribute of a name that is also the last attribute is the only one. */
  lemma RemoveFirstAtEnd(attrs: seq<Attr>, name: string, i: nat)
    requires FirstNamed(attrs, name) == Some(i) && i == |attrs| - 1
    ensures !HasAttr(RemoveAt(attrs, i), name) && LastArgs(attrs, name) == Some(attrs[i].args)
  {
    RemoveAtLast(attrs, i);
  }

  /** When the last attribute carries the name, it is the last one both before and after. */
  lemma RemoveFirstBeforeLast(attrs: seq<Attr>, name: string, i: nat)
    requires i < |attrs| - 1 && attrs[|attrs| - 1].name == name
    ensures HasAttr(RemoveAt(attrs, i), name)
    ensures LastArgs(RemoveAt(attrs, i), name) == LastArgs(attrs, name)
  {
    RemoveAtInit(attrs, i);
    var r := RemoveAt(attrs, i);
    assert r[|r| - 1] == attrs[|attrs| - 1];
  }

  predicate ReturnsParse(attrs: seq<Attr>) {
    forall a :: a in attrs && a.name == "default_return" ==> ParseReturn(a.args).Ok?
  }

  lemma {:induction false} LastArgsIn(attrs: seq<Attr>, name: string)
    requires HasAttr(attrs, name)
    ensures exists a :: a in attrs && a.name == name && a.args == LastArgs(attrs, name).value
  {
    if attrs[|attrs| - 1].name != name {
      var init := attrs[..|attrs| - 1];
      LastArgsIn(init, name);
      var a :| a in init && a.name == name && a.args == LastArgs(init, name).value;
      assert a in attrs;
    } else {
      assert attrs[|attrs| - 1] in attrs;
    }
  }

  /** The action the last `#[default_return]` attribute gives. */
  function LastReturn(attrs: seq<Attr>): FailAction
    requires HasAttr(attrs, "default_return") && ReturnsParse(attrs)
  {
    LastArgsIn(attrs, "default_return");
    Return(ParseReturn(LastArgs(attrs, "default_return").value).value)
  }

  lemma RemovePreservesParse(attrs: seq<Attr>, i: nat)
    requires i < |attrs| && ReturnsParse(attrs)
    ensures ReturnsParse(RemoveAt(attrs, i))
  {
    forall a | a in RemoveAt(attrs, i) && a.name == "default_return"
      ensures ParseReturn(a.args).Ok?
    {
      FromRemoveAt(attrs, i, a);
    }
  }

  /**
   * Kinds are taken in a fixed order, panic, allow-none, return, so with
   * well-formed `#[default_return]` attributes the last of them wins.
   */
  lemma {:induction false} LastReturnWins(attrs: seq<Attr>, action: FailAction)
    requires HasAttr(attrs, "default_return") && ReturnsParse(attrs)
    ensures DefaultsFrom(attrs, action).action == LastReturn(attrs)
    decreases |attrs|
  {
    var p := FirstNamed(attrs, "default_panic");
    var n := FirstNamed(attrs, "default_allow_none");
    var r := FirstNamed(attrs, "default_return");
    if p.Some? || n.Some? {
      var i := if p.Some? then p.value else n.value;
      var next := if p.Some? then Panic else AllowNone;
      var rest := RemoveAt(attrs, i);
      RemoveOther(attrs, i, "default_return");
      RemovePreservesParse(attrs, i);
      LastReturnWins(rest, next);
      assert DefaultsFrom(attrs, action).action == DefaultsFrom(rest, next).action;
    } else {
      var i := r.value;
      var rest := RemoveAt(attrs, i);
      assert attrs[i] in attrs;
      var v := ParseReturn(attrs[i].args).value;
      assert DefaultsFrom(attrs, action).action == DefaultsFrom(rest, Return(v)).action;
      RemoveFirst(attrs, "default_return", i);
      RemovePreservesParse(attrs, i);
      RemoveOther(attrs, i, "default_panic");
      RemoveOther(attrs, i, "default_allow_none");
      if HasAttr(rest, "default_return") {
        LastReturnWins(rest, Return(v));
      } else {
        NoDefaultsNoChange(rest, Return(v));
      }
    }
  }

  /** Without `#[default_return]`, an allow-none attribute wins over panic ones. */
  lemma {:induction false} AllowNoneWins(attrs: seq<Attr>, action: FailAction)
    requires !HasAttr(attrs, "default_return") && HasAttr(attrs, "default_allow_none")
    ensures DefaultsFrom(attrs, action).action == AllowNone
    decreases |attrs|
  {
    var p := FirstNamed(attrs, "default_panic");
    var n := FirstNamed(attrs, "default_allow_none");
    if p.Some? {
      var rest := RemoveAt(attrs, p.value);
      RemoveOther(attrs, p.value, "default_return");
      RemoveOther(attrs, p.value, "default_allow_none");
      AllowNoneWins(rest, Panic);
    } else {
      var rest := RemoveAt(attrs, n.value);
      RemoveOther(attrs, n.value, "default_return");
      RemoveOther(attrs, n.value, "default_panic");
      if HasAttr(rest, "default_allow_none") {
        AllowNoneWins(rest, AllowNone);
      } else {
        NoDefaultsNoChange(rest, AllowNone);
      }
    }
  }

  /** With only `#[default_panic]` attributes the action is to panic. */
  lemma {:induction false} PanicWins(attrs: seq<Attr>, action: FailAction)
    requires !HasAttr(attrs, "default_return") && !HasAttr(attrs, "default_allow_none")
    requires HasAttr(attrs, "default_panic")
    ensures DefaultsFrom(attrs, action).action == Panic
    decreases |attrs|
  {
    var i := FirstNamed(attrs, "default_panic").value;
    var rest := RemoveAt(attrs, i);
    RemoveOther(attrs, i, "default_return");
    RemoveOther(attrs, i, "default_allow_none");
    if HasAttr(rest, "default_panic") {
      PanicWins(rest, Panic);
    } else {
      NoDefaultsNoChange(rest, Panic);
    }
  }

  /** The first default attribute the loop takes, with the action it gives and its token errors. */
  function FirstDefault(attrs: seq<Attr>): (r: (nat, FailAction, seq<string>))
    requires ReturnsParse(attrs)
    requires HasAttr(attrs, "default_panic") || HasAttr(attrs, "default_allow_none") || HasAttr(attrs, "default_return")
    ensures r.0 < |attrs|
  {
    var p := FirstNamed(attrs, "default_panic");
    var n := FirstNamed(attrs, "default_allow_none");
    var r := FirstNamed(attrs, "default_return");
    if p.Some? then (p.value, Panic, NothingErrs(attrs[p.value].args))
    else if n.Some? then (n.value, AllowNone, NothingErrs(attrs[n.value].args))
    else
      assert attrs[r.value] in attrs;
      (r.value, Return(ParseReturn(attrs[r.value].args).value), [])
  }

  lemma DefaultsStep(attrs: seq<Attr>, action: FailAction)
    requires ReturnsParse(attrs)
    requires HasAttr(attrs, "default_panic") || HasAttr(attrs, "default_allow_none") || HasAttr(attrs, "default_return")
    ensures var (k, next, errs0) := FirstDefault(attrs);
      DefaultsFrom(attrs, action) == TakeAction(RemoveAt(attrs, k), action, next, errs0)
  {
  }

  /** A well-formed default attribute that finds an action already chosen is a duplicate. */
  lemma DuplicateReported(attrs: seq<Attr>, action: FailAction)
    requires action != Unspecified && ReturnsParse(attrs)
    requires HasAttr(attrs, "default_panic") || HasAttr(attrs, "default_allow_none") || HasAttr(attrs, "default_return")
    ensures DUPLICATE_DEFAULT in DefaultsFrom(attrs, action).errs
  {
    DefaultsStep(attrs, action);
    var (k, next, errs0) := FirstDefault(attrs);
    var after := DefaultsFrom(RemoveAt(attrs, k), next);
    assert DefaultsFrom(attrs, action).errs == errs0 + [DUPLICATE_DEFAULT] + after.errs;
  }

  /** Two well-formed default attributes are always a duplicate, whatever came before. */
  lemma TwoDefaultsDuplicate(attrs: seq<Attr>, action: FailAction, i: nat, j: nat)
    requires i < j < |attrs| && IsDefaultAttr(attrs[i]) && IsDefaultAttr(attrs[j]) && ReturnsParse(attrs)
    ensures DUPLICATE_DEFAULT in DefaultsFrom(attrs, action).errs
  {
    DefaultPresent(attrs, i);
    if action != Unspecified {
      DuplicateReported(attrs, action);
    } else {
      FirstTakes(attrs);
      var (k, next, errs0) := FirstDefault(attrs);
      var rest := RemoveAt(attrs, k);
      RemainingDefault(attrs, k, if k == i then j else i);
      RemovePreservesParse(attrs, k);
      DuplicateReported(rest, next);
    }
  }

  /** With no action chosen yet, the first default attribute sets one and the walk goes on without it. */
  lemma FirstTakes(attrs: seq<Attr>)
    requires ReturnsParse(attrs)
    requires HasAttr(attrs, "default_panic") || HasAttr(attrs, "default_allow_none") || HasAttr(attrs, "default_return")
    ensures var (k, next, errs0) := FirstDefault(attrs);
      next != Unspecified && DefaultsFrom(attrs, Unspecified).errs == errs0 + DefaultsFrom(RemoveAt(attrs, k), next).errs
  {
    DefaultsStep(attrs, Unspecified);
    var (k, next, errs0) := FirstDefault(attrs);
    TakeFirst(RemoveAt(attrs, k), next, errs0);
  }

  lemma TakeFirst(rest: seq<Attr>, next: FailAction, errs: seq<string>)
    ensures TakeAction(rest, Unspecified, next, errs).errs == errs + DefaultsFrom(rest, next).errs
  {
    assert errs + [] == errs;
  }

  lemma RemainingDefault(attrs: seq<Attr>, k: nat, other: nat)
    requires k < |attrs| && other < |attrs| && k != other && IsDefaultAttr(attrs[other])
    ensures var rest := RemoveAt(attrs, k);
      HasAttr(rest, "default_panic") || HasAttr(rest, "default_allow_none") || HasAttr(rest, "default_return")
  {
    var rest := RemoveAt(attrs, k);
    InRemoveAt(attrs, k, other);
    var m :| 0 <= m < |rest| && rest[m] == attrs[other];
    DefaultPresent(rest, m);
  }

  // ------------------------------------------------ #[rest] and argument count

  const UNKNOWN_REST_TOKENS := "Unknown tokens on #[rest] attribute"
  const ARGS_PAST_REST := "Arguments not allowed past #[rest] parameter"

  /** The first parameter marked `#[rest]`. */
  function RestIndex(inputs: seq<Input>): (r: Option<nat>)
    ensures r.Some? ==> r.value < |inputs| && HasAttr(inputs[r.value].attrs, "rest")
    ensures r.Some? ==> forall k :: 0 <= k < r.value ==> !HasAttr(inputs[k].attrs, "rest")
    ensures r.None? ==> forall k :: 0 <= k < |inputs| ==> !HasAttr(inputs[k].attrs, "rest")
  {
    if |inputs| == 0 then None
    else if HasAttr(inputs[0].attrs, "rest") then Some(0)
    else match RestIndex(inputs[1..])
      case None => None
      case Some(i) => Some(i + 1)
  }

  /** The parameters, the `#[rest]` position and the errors after the `#[rest]` handling. */
  datatype RestOutcome = RestOutcome(inputs: seq<Input>, rest: Option<nat>, errs: seq<string>)

  /**
   * The `#[rest]` handling: the attribute is taken off the first parameter
   * that has it, that parameter becomes the last one, and each parameter
   * dropped after it is reported once.
   */
  function RestOf(inputs: seq<Input>): (r: RestOutcome)
    ensures r.rest == RestIndex(inputs)
    ensures r.rest.None? ==> r.inputs == inputs && r.errs == []
    ensures r.rest.Some? ==> |r.inputs| == r.rest.value + 1 && r.inputs[..r.rest.value] == inputs[..r.rest.value]
    ensures r.rest.Some? ==> r.inputs[r.rest.value].pat == inputs[r.rest.value].pat
    ensures r.rest.Some? ==> |r.inputs[r.rest.value].attrs| + 1 == |inputs[r.rest.value].attrs|
    ensures r.rest.Some? ==> var dropped := |inputs| - |r.inputs|;
      dropped <= |r.errs| <= dropped + 1 && r.errs[|r.errs| - dropped..] == Repeat(ARGS_PAST_REST, dropped)
  {
    match RestIndex(inputs)
    case None => RestOutcome(inputs, None, [])
    case Some(i) =>
      var (attr, others) := ExtractAttr(inputs[i].attrs, "rest");
      var tokens := if attr.value.args != NoTokens then [UNKNOWN_REST_TOKENS] else [];
      RestOutcome(inputs[..i] + [Input(others, inputs[i].pat)], Some(i), tokens + Repeat(ARGS_PAST_REST, |inputs| - i - 1))
  }

  /**
   * `required_arg_count`: one more than the position of the last parameter
   * that is neither `_` nor the `#[rest]` one, or 0.
   */
  function RequiredArgCount(inputs: seq<Input>, rest: Option<nat>): (n: nat)
    ensures n <= |inputs|
    ensures n > 0 ==> Some(n - 1) != rest && !inputs[n - 1].pat.PWild?
    ensures forall i :: n <= i < |inputs| ==> Some(i) == rest || inputs[i].pat.PWild?
  {
    if |inputs| == 0 then 0
    else
      var i := |inputs| - 1;
      if Some(i) != rest && !inputs[i].pat.PWild? then i + 1
      else RequiredArgCount(inputs[..i], rest)
  }

  /**
   * The generated closure checks the number of values only when something
   * is required, and a call with at least that many values has a value for
   * every parameter that takes one.
   */
  lemma {:induction false} RequiredCountCoversParams(inputs: seq<Input>, rest: Option<nat>, i: nat)
    requires i < |inputs| && Some(i) != rest && !inputs[i].pat.PWild?
    ensures i < RequiredArgCount(inputs, rest)
  {
  }

  // -------------------------------------------------------------- closures

  const MUST_MOVE_GCLOSURE := "Closure must be `move` to use #[watch] or #[strong] or #[weak]"
  const MUST_MOVE_CLONE := "Closure must be `move` to use #[strong] or #[weak]"

  predicate AnyHasAttr(inputs: seq<Input>, name: string) {
    exists k :: 0 <= k < |inputs| && HasAttr(inputs[k].attrs, name)
  }

  /** `has_captures`: some parameter has `#[strong]` or `#[weak]`. */
  predicate HasCaptures(inputs: seq<Input>) {
    AnyHasAttr(inputs, "strong") || AnyHasAttr(inputs, "weak")
  }

  /** What a closure rewrite has settled before it writes the tokens. */
  datatype Plan = Plan(
    local: bool,
    mode: Mode,
    captures: seq<Capture>,
    inputs: seq<Input>,
    rest: Option<nat>,
    requiredArgs: nat)

  datatype Outcome = Outcome(plan: Plan, errs: seq<string>)

  /** The default action given to every capture, or the captures as they are when there is none. */
  function AddDefault(captures: seq<Capture>, action: FailAction): (r: seq<Capture>)
    ensures |r| == |captures|
    ensures forall i :: 0 <= i < |r| ==> r[i] == if action == Unspecified then captures[i] else SetDefaultFail(captures[i], action)
  {
    if action == Unspecified then captures
    else seq(|captures|, i requires 0 <= i < |captures| => SetDefaultFail(captures[i], action))
  }

  /**
   * `create_gclosure` after its gate, from what `get_captures` and
   * `extract_default_fail_action` found: the default action goes to the
   * weak captures, a closure with captures must be `move`, the captures
   * are validated, then `#[rest]` is handled and the argument count taken.
   */
  function GClosureRewrite(local: bool, mode: Mode, attrCaptures: seq<Capture>, scan: Scan, defaults: Defaults, isMove: bool): Outcome
  {
    var captures := AddDefault(attrCaptures + scan.captures, defaults.action);
    var moveErr := if |captures| > 0 && !isMove then [MUST_MOVE_GCLOSURE] else [];
    var check := CheckCaptures(captures, InputNames(scan.kept));
    var rest := RestOf(scan.kept);
    var plan := Plan(local, mode, captures, rest.inputs, rest.rest, RequiredArgCount(rest.inputs, rest.rest));
    Outcome(plan, scan.errs + defaults.errs + moveErr + check.errs + rest.errs)
  }

  /**
   * `create_gclosure` up to the tokens: only a closure marked `#[closure]`
   * or with a `#[watch]` parameter is rewritten; its captures come from
   * the attribute and then the parameters.
   */
  function GClosure(hasClosureAttr: bool, localFlag: bool, attrCaptures: seq<Capture>, attrAction: FailAction,
                    attrs: seq<Attr>, inputs: seq<Input>, isMove: bool, isAsync: bool): Option<Outcome>
  {
    if !hasClosureAttr && !AnyHasAttr(inputs, "watch") then None
    else
      var mode := if isAsync then ClosureAsyncMode else ClosureMode;
      Some(GClosureRewrite(!hasClosureAttr || localFlag, mode, attrCaptures, Captures(inputs, mode), DefaultsFrom(attrs, attrAction), isMove))
  }

  /**
   * `create_closure` after its gate: the captures are validated before the
   * default action is read, and the closure must be `move` whether or not
   * it ends up with captures.
   */
  function CloneRewrite(attrCaptures: seq<Capture>, scan: Scan, defaults: Defaults, isMove: bool): Outcome
  {
    var captures := attrCaptures + scan.captures;
    var check := CheckCaptures(captures, InputNames(scan.kept));
    var moveErr := if !isMove then [MUST_MOVE_CLONE] else [];
    var plan := Plan(false, CloneMode, AddDefault(captures, defaults.action), scan.kept, None, 0);
    Outcome(plan, scan.errs + check.errs + moveErr + defaults.errs)
  }

  /** `create_closure` up to the tokens: only a closure marked `#[clone]` or with a `#[strong]`/`#[weak]` parameter is rewritten. */
  function CloneClosure(hasCloneAttr: bool, attrCaptures: seq<Capture>, attrAction: FailAction,
                        attrs: seq<Attr>, inputs: seq<Input>, isMove: bool): Option<Outcome>
  {
    if !hasCloneAttr && !HasCaptures(inputs) then None
    else Some(CloneRewrite(attrCaptures, Captures(inputs, CloneMode), DefaultsFrom(attrs, attrAction), isMove))
  }

  /** `#[closure]` is local only with `#[closure(local)]`; a closure rewritten only for a `#[watch]` parameter always is. */
  lemma GClosureLocal(hasClosureAttr: bool, localFlag: bool, attrCaptures: seq<Capture>, attrAction: FailAction,
                      attrs: seq<Attr>, inputs: seq<Input>, isMove: bool, isAsync: bool)
    requires GClosure(hasClosureAttr, localFlag, attrCaptures, attrAction, attrs, inputs, isMove, isAsync).Some?
    ensures var o := GClosure(hasClosureAttr, localFlag, attrCaptures, attrAction, attrs, inputs, isMove, isAsync).value;
      !hasClosureAttr ==> o.plan.local && AnyHasAttr(inputs, "watch")
    ensures var o := GClosure(hasClosureAttr, localFlag, attrCaptures, attrAction, attrs, inputs, isMove, isAsync).value;
      hasClosureAttr ==> o.plan.local == localFlag
  {
  }

  /**
   * A closure rewrite that reports nothing is `move` or captures nothing,
   * its captures pass validation, and a `#[rest]` parameter is the last
   * one with nothing dropped after it.
   */
  lemma GClosureClean(local: bool, mode: Mode, attrCaptures: seq<Capture>, scan: Scan, defaults: Defaults, isMove: bool)
    requires GClosureRewrite(local, mode, attrCaptures, scan, defaults, isMove).errs == []
    ensures var p := GClosureRewrite(local, mode, attrCaptures, scan, defaults, isMove).plan;
      (isMove || p.captures == []) && WatchCount(p.captures) <= 1 && NamesDistinct(p.captures, InputNames(scan.kept))
    ensures var p := GClosureRewrite(local, mode, attrCaptures, scan, defaults, isMove).plan;
      p.rest.Some? ==> p.rest.value == |p.inputs| - 1 && |p.inputs| == |scan.kept|
  {
    var captures := AddDefault(attrCaptures + scan.captures, defaults.action);
    var moveErr := if |captures| > 0 && !isMove then [MUST_MOVE_GCLOSURE] else [];
    var check := CheckCaptures(captures, InputNames(scan.kept));
    var rest := RestOf(scan.kept);
    assert |scan.errs + defaults.errs + moveErr + check.errs + rest.errs| == 0;
    ValidateIff(captures, InputNames(scan.kept));
  }

  /** `create_closure` reports a missing `move` even when nothing is captured. */
  lemma CloneClosureNeedsMove(attrCaptures: seq<Capture>, scan: Scan, defaults: Defaults)
    ensures MUST_MOVE_CLONE in CloneRewrite(attrCaptures, scan, defaults, false).errs
    ensures CloneRewrite(attrCaptures, scan, defaults, true).errs == [] ==>
      var p := CloneRewrite(attrCaptures, scan, defaults, true).plan;
      NamesDistinct(attrCaptures + scan.captures, InputNames(scan.kept)) && p.inputs == scan.kept
  {
    var check := CheckCaptures(attrCaptures + scan.captures, InputNames(scan.kept));
    assert CloneRewrite(attrCaptures, scan, defaults, false).errs[|scan.errs| + |check.errs|] == MUST_MOVE_CLONE;
    ValidateIff(attrCaptures + scan.captures, InputNames(scan.kept));
    if CloneRewrite(attrCaptures, scan, defaults, true).errs == [] {
      assert |scan.errs + check.errs + defaults.errs| == 0;
    }
  }

  // ---------------------------------------------------------------- visitor

  /** The two rewrites, over the errors collected so far. */
  class Visitor {
    var errors: seq<string>

    constructor ()
      ensures errors == []
    {
      errors := [];
    }

    /**
     * `get_captures`: walks the parameters, taking out each one that
     * carries a capture attribute and keeping the others in place.
     */
    method GetCaptures(inputs0: seq<Input>, mode: Mode) returns (inputs: seq<Input>, captures: seq<Capture>)
      modifies this
      ensures inputs == Captures(inputs0, mode).kept
      ensures captures == Captures(inputs0, mode).captures
      ensures errors == old(errors) + Captures(inputs0, mode).errs
    {
      inputs := inputs0;
      captures := [];
      var index: nat := 0;
      ghost var done: nat := 0;
      ghost var scan := Scan([], [], []);
      ghost var errs0 := errors;
      while index < |inputs|
        invariant Walk(inputs0, mode, done, scan, inputs, index, captures) && errors == errs0 + scan.errs
        decreases |inputs0| - done
      {
        inputs, index, captures, done, scan := CaptureTurn(inputs0, mode, inputs, index, captures, done, scan, errs0);
      }
      WalkDone(inputs0, mode, done, scan, inputs, index, captures);
    }

    /** One turn of `get_captures`' loop. */
    method CaptureTurn(inputs0: seq<Input>, mode: Mode, inputs: seq<Input>, index: nat, captures: seq<Capture>,
                       ghost done: nat, ghost scan: Scan, ghost errs0: seq<string>)
      returns (inputs': seq<Input>, index': nat, captures': seq<Capture>, ghost done': nat, ghost scan': Scan)
      requires Walk(inputs0, mode, done, scan, inputs, index, captures) && errors == errs0 + scan.errs
      requires index < |inputs|
      modifies this
      ensures Walk(inputs0, mode, done', scan', inputs', index', captures') && errors == errs0 + scan'.errs
      ensures done' == done + 1
    {
      var step := CaptureStep(inputs[index], mode);
      WalkNext(inputs0, mode, done, scan, inputs, index, captures);
      inputs', index', captures' := inputs, index, captures;
      if step.keep {
        index' := index + 1;
      } else {
        inputs' := RemoveAt(inputs, index);
        captures' := captures + OptSeq(step.capture);
        errors := errors + step.errs;
        AppendAssoc(errs0, scan.errs, step.errs);
      }
      scan' := NextScan(scan, inputs0[done], step);
      done' := done + 1;
    }

    /** `validate_captures`: a second watch, or a name already taken, is an error. */
    method ValidateCaptures(captures: seq<Capture>, inputs: seq<Input>)
      modifies this
      ensures errors == old(errors) + CheckCaptures(captures, InputNames(inputs)).errs
    {
      var names := CollectNames(inputs);
      var hasWatch := false;
      ghost var errs: seq<string> := [];
      ghost var errs0 := errors;
      var j := 0;
      while j < |captures|
        invariant 0 <= j <= |captures|
        invariant CheckCaptures(captures[..j], InputNames(inputs)) == Check(errs, hasWatch, names)
        invariant errors == errs0 + errs
      {
        assert captures[..j + 1][..j] == captures[..j];
        hasWatch, names, errs := CheckTurn(captures[j], hasWatch, names, errs, errs0);
        j := j + 1;
      }
      assert captures[..j] == captures;
    }

    /** One turn of `validate_captures`' second loop. */
    method CheckTurn(c: Capture, hasWatch: bool, names: set<string>, ghost errs: seq<string>, ghost errs0: seq<string>)
      returns (hasWatch': bool, names': set<string>, ghost errs': seq<string>)
      requires errors == errs0 + errs
      modifies this
      ensures Check(errs', hasWatch', names') == NextCheck(Check(errs, hasWatch, names), c)
      ensures errors == errs0 + errs'
    {
      hasWatch', names', errs' := hasWatch, names, errs;
      if c.Watch? {
        if hasWatch {
          errors := errors + [ONE_WATCH];
          errs' := errs' + [ONE_WATCH];
        } else {
          hasWatch' := true;
        }
      }
      if c.ident.Some? {
        if c.ident.value in names {
          errors := errors + [UsedTwice(c.ident.value)];
          errs' := errs' + [UsedTwice(c.ident.value)];
        } else {
          names' := names + {c.ident.value};
        }
      }
      assert errs' == errs + (if c.Watch? && hasWatch then [ONE_WATCH] else [])
        + (if c.ident.Some? && c.ident.value in names then [UsedTwice(c.ident.value)] else []);
    }

    /** `extract_default_fail_action`. */
    method ExtractDefaultFailAction(attrs0: seq<Attr>, action0: FailAction) returns (attrs: seq<Attr>, action: FailAction)
      modifies this
      ensures attrs == DefaultsFrom(attrs0, action0).attrs
      ensures action == DefaultsFrom(attrs0, action0).action
      ensures errors == old(errors) + DefaultsFrom(attrs0, action0).errs
    {
      attrs, action := attrs0, action0;
      ghost var errs: seq<string> := [];
      ghost var errs0 := errors;
      var more := true;
      assert attrs0 == attrs && errs + DefaultsFrom(attrs, action).errs == DefaultsFrom(attrs, action).errs;
      while more
        invariant more ==> DefaultsLeft(attrs0, action0, attrs, action, errs)
        invariant !more ==> DefaultsFrom(attrs0, action0) == Defaults(attrs, action, errs)
        invariant errors == errs0 + errs
        decreases |attrs| + (if more then 1 else 0)
      {
        attrs, action, more, errs := DefaultTurn(attrs0, action0, attrs, action, errs, errs0);
      }
    }

    /** One turn of `extract_default_fail_action`'s loop. */
    method DefaultTurn(attrs0: seq<Attr>, action0: FailAction, attrs: seq<Attr>, action: FailAction,
                       ghost errs: seq<string>, ghost errs0: seq<string>)
      returns (attrs': seq<Attr>, action': FailAction, more: bool, ghost errs': seq<string>)
      requires DefaultsLeft(attrs0, action0, attrs, action, errs) && errors == errs0 + errs
      modifies this
      ensures more ==> DefaultsLeft(attrs0, action0, attrs', action', errs') && |attrs'| < |attrs|
      ensures !more ==> DefaultsFrom(attrs0, action0) == Defaults(attrs', action', errs') && |attrs'| <= |attrs|
      ensures errors == errs0 + errs'
    {
      ghost var d := DefaultsFrom(attrs, action);
      var p := FirstNamed(attrs, "default_panic");
      var n := FirstNamed(attrs, "default_allow_none");
      var r := FirstNamed(attrs, "default_return");
      var next: FailAction;
      var tokenErrs: seq<string>;
      if p.Some? {
        next, tokenErrs := Panic, NothingErrs(attrs[p.value].args);
        attrs' := RemoveAt(attrs, p.value);
      } else if n.Some? {
        next, tokenErrs := AllowNone, NothingErrs(attrs[n.value].args);
        attrs' := RemoveAt(attrs, n.value);
      } else if r.Some? {
        var parsed := ParseReturn(attrs[r.value].args);
        attrs' := RemoveAt(attrs, r.value);
        if parsed.Err? {
          errors := errors + [parsed.error];
          errs' := errs + [parsed.error];
          action', more := action, false;
          return;
        }
        next, tokenErrs := Return(parsed.value), [];
      } else {
        assert errs + [] == errs;
        attrs', action', more, errs' := attrs, action, false, errs;
        return;
      }
      var dup := if action != Unspecified then [DUPLICATE_DEFAULT] else [];
      assert d == TakeAction(attrs', action, next, tokenErrs);
      AppendAssoc(errs, tokenErrs + dup, DefaultsFrom(attrs', next).errs);
      AppendAssoc(errs0, errs, tokenErrs + dup);
      errors := errors + (tokenErrs + dup);
      errs' := errs + (tokenErrs + dup);
      action', more := next, true;
    }

    /** The `#[rest]` handling: the search, the attribute taken off, then the parameters past it dropped. */
    method HandleRest(inputs0: seq<Input>) returns (inputs: seq<Input>, rest: Option<nat>)
      modifies this
      ensures inputs == RestOf(inputs0).inputs && rest == RestOf(inputs0).rest
      ensures errors == old(errors) + RestOf(inputs0).errs
    {
      rest := FindRest(inputs0);
      if rest.None? {
        return inputs0, rest;
      }
      inputs := TakeRest(inputs0, rest.value);
    }

    /** Takes `#[rest]` off parameter `i`, reporting any tokens it has, and drops what follows. */
    method TakeRest(inputs0: seq<Input>, i: nat) returns (inputs: seq<Input>)
      requires i < |inputs0| && HasAttr(inputs0[i].attrs, "rest")
      modifies this
      ensures var (attr, others) := ExtractAttr(inputs0[i].attrs, "rest");
        inputs == inputs0[..i] + [Input(others, inputs0[i].pat)]
        && errors == old(errors) + (if attr.value.args != NoTokens then [UNKNOWN_REST_TOKENS] else [])
             + Repeat(ARGS_PAST_REST, |inputs0| - i - 1)
    {
      var (attr, others) := ExtractAttr(inputs0[i].attrs, "rest");
      if attr.value.args != NoTokens {
        errors := errors + [UNKNOWN_REST_TOKENS];
      }
      inputs := inputs0[i := Input(others, inputs0[i].pat)];
      inputs := DropPastRest(inputs, i);
      assert inputs0[..i] == inputs[..i];
    }

    /** Removes every parameter after position `i`, one at a time, reporting each. */
    method DropPastRest(inputs0: seq<Input>, i: nat) returns (inputs: seq<Input>)
      requires i < |inputs0|
      modifies this
      ensures inputs == inputs0[..i + 1]
      ensures errors == old(errors) + Repeat(ARGS_PAST_REST, |inputs0| - i - 1)
    {
      inputs := inputs0;
      ghost var removed := 0;
      while |inputs| > i + 1
        invariant |inputs| + removed == |inputs0| && |inputs| >= i + 1
        invariant inputs[..i + 1] == inputs0[..i + 1]
        invariant errors == old(errors) + Repeat(ARGS_PAST_REST, removed)
      {
        inputs := inputs[..i + 1] + inputs[i + 2..];
        errors := errors + [ARGS_PAST_REST];
        RepeatSnoc(ARGS_PAST_REST, removed);
        removed := removed + 1;
      }
      assert inputs == inputs[..i + 1];
    }

    /** `create_gclosure` up to the tokens it writes. */
    method CreateGClosure(hasClosureAttr: bool, localFlag: bool, attrCaptures: seq<Capture>, attrAction: FailAction,
                          attrs0: seq<Attr>, inputs0: seq<Input>, isMove: bool, isAsync: bool) returns (plan: Option<Plan>)
      modifies this
      ensures var o := GClosure(hasClosureAttr, localFlag, attrCaptures, attrAction, attrs0, inputs0, isMove, isAsync);
        plan == (if o.Some? then Some(o.value.plan) else None) && errors == old(errors) + (if o.Some? then o.value.errs else [])
    {
      var hasWatch := AnyAttr(inputs0, "watch");
      if !hasClosureAttr && !hasWatch {
        return None;
      }
      var local := !hasClosureAttr || localFlag;
      var mode := if isAsync then ClosureAsyncMode else ClosureMode;
      ghost var errs0 := errors;
      var inputs, caps := GetCaptures(inputs0, mode);
      var attrs, action := ExtractDefaultFailAction(attrs0, attrAction);
      var p := FinishGClosure(local, mode, attrCaptures, isMove, inputs, caps, action,
                              Captures(inputs0, mode), DefaultsFrom(attrs0, attrAction), errs0);
      plan := Some(p);
    }

    /** The rest of `create_gclosure` once the captures and the default action are known. */
    method FinishGClosure(local: bool, mode: Mode, attrCaptures: seq<Capture>, isMove: bool,
                          inputs0: seq<Input>, caps: seq<Capture>, action: FailAction,
                          ghost scan: Scan, ghost defaults: Defaults, ghost errs0: seq<string>) returns (plan: Plan)
      requires inputs0 == scan.kept && caps == scan.captures && action == defaults.action
      requires errors == errs0 + scan.errs + defaults.errs
      modifies this
      ensures var o := GClosureRewrite(local, mode, attrCaptures, scan, defaults, isMove);
        plan == o.plan && errors == errs0 + o.errs
    {
      var captures := attrCaptures + caps;
      if action != Unspecified {
        captures := SetDefaultFails(captures, action);
      }
      assert captures == AddDefault(attrCaptures + caps, action);
      var moveErr := if |captures| > 0 && !isMove then [MUST_MOVE_GCLOSURE] else [];
      errors := errors + moveErr;
      ValidateCaptures(captures, inputs0);
      var inputs, rest := HandleRest(inputs0);
      var required := RequiredArgCount(inputs, rest);
      plan := Plan(local, mode, captures, inputs, rest, required);
      ghost var check := CheckCaptures(captures, InputNames(inputs0));
      AppendAssoc5(errs0, scan.errs, defaults.errs, moveErr, check.errs, RestOf(inputs0).errs);
    }

    /** `create_closure` up to the tokens it writes. */
    method CreateClosure(hasCloneAttr: bool, attrCaptures: seq<Capture>, attrAction: FailAction,
                         attrs0: seq<Attr>, inputs0: seq<Input>, isMove: bool) returns (plan: Option<Plan>)
      modifies this
      ensures var o := CloneClosure(hasCloneAttr, attrCaptures, attrAction, attrs0, inputs0, isMove);
        plan == (if o.Some? then Some(o.value.plan) else None) && errors == old(errors) + (if o.Some? then o.value.errs else [])
    {
      var strong := AnyAttr(inputs0, "strong");
      var weak := AnyAttr(inputs0, "weak");
      if !hasCloneAttr && !strong && !weak {
        return None;
      }
      ghost var errs0 := errors;
      var inputs, caps := GetCaptures(inputs0, CloneMode);
      var p := FinishClosure(attrCaptures, isMove, inputs, caps, attrs0, attrAction, Captures(inputs0, CloneMode), errs0);
      plan := Some(p);
    }

    /** The rest of `create_closure` once the captures are known. */
    method FinishClosure(attrCaptures: seq<Capture>, isMove: bool, inputs: seq<Input>, caps: seq<Capture>,
                         attrs0: seq<Attr>, attrAction: FailAction, ghost scan: Scan, ghost errs0: seq<string>) returns (plan: Plan)
      requires inputs == scan.kept && caps == scan.captures && errors == errs0 + scan.errs
      modifies this
      ensures var o := CloneRewrite(attrCaptures, scan, DefaultsFrom(attrs0, attrAction), isMove);
        plan == o.plan && errors == errs0 + o.errs
    {
      var captures := attrCaptures + caps;
      ValidateCaptures(captures, inputs);
      var moveErr := if !isMove then [MUST_MOVE_CLONE] else [];
      errors := errors + moveErr;
      var attrs, action := ExtractDefaultFailAction(attrs0, attrAction);
      if action != Unspecified {
        captures := SetDefaultFails(captures, action);
      }
      assert captures == AddDefault(attrCaptures + caps, action);
      plan := Plan(false, CloneMode, captures, inputs, None, 0);
      ghost var check := CheckCaptures(attrCaptures + caps, InputNames(inputs));
      AppendAssoc4(errs0, scan.errs, check.errs, moveErr, DefaultsFrom(attrs0, attrAction).errs);
    }
  }

  /** The state of `get_captures`' walk after `done` parameters. */
  ghost predicate Walk(inputs0: seq<Input>, mode: Mode, done: nat, scan: Scan, inputs: seq<Input>, index: nat, captures: seq<Capture>) {
    done <= |inputs0| && scan == Captures(inputs0[..done], mode)
    && inputs == scan.kept + inputs0[done..] && index == |scan.kept| && captures == scan.captures
  }

  lemma WalkNext(inputs0: seq<Input>, mode: Mode, done: nat, scan: Scan, inputs: seq<Input>, index: nat, captures: seq<Capture>)
    requires Walk(inputs0, mode, done, scan, inputs, index, captures) && index < |inputs|
    ensures done < |inputs0| && inputs[index] == inputs0[done]
    ensures var step := CaptureStep(inputs0[done], mode);
      var next := NextScan(scan, inputs0[done], step);
      if step.keep then
        next.errs == scan.errs && Walk(inputs0, mode, done + 1, next, inputs, index + 1, captures)
      else
        Walk(inputs0, mode, done + 1, next, RemoveAt(inputs, index), index, captures + OptSeq(step.capture))
  {
    CapturesSnoc(inputs0, done, mode);
    SplitAt(scan.kept, inputs0, done);
    KeptStep(inputs0[done], mode);
    assert scan.captures + [] == scan.captures && scan.errs + [] == scan.errs;
  }

  lemma CapturesSnoc(inputs: seq<Input>, done: nat, mode: Mode)
    requires done < |inputs|
    ensures Captures(inputs[..done + 1], mode) == NextScan(Captures(inputs[..done], mode), inputs[done], CaptureStep(inputs[done], mode))
  {
    assert inputs[..done + 1][..done] == inputs[..done];
  }

  lemma KeptStep(input: Input, mode: Mode)
    ensures CaptureStep(input, mode).keep ==> CaptureStep(input, mode) == Step(true, None, [])
  {
  }

  /** The parameter at the walk's position, and the parameters around it. */
  lemma SplitAt<T>(kept: seq<T>, xs: seq<T>, done: nat)
    requires done < |xs|
    ensures var ys := kept + xs[done..];
      ys[|kept|] == xs[done] && ys[..|kept|] + ys[|kept| + 1..] == kept + xs[done + 1..]
      && ys == (kept + [xs[done]]) + xs[done + 1..]
  {
    assert xs[done..] == [xs[done]] + xs[done + 1..];
  }

  lemma WalkDone(inputs0: seq<Input>, mode: Mode, done: nat, scan: Scan, inputs: seq<Input>, index: nat, captures: seq<Capture>)
    requires Walk(inputs0, mode, done, scan, inputs, index, captures) && index >= |inputs|
    ensures scan == Captures(inputs0, mode) && inputs == scan.kept && captures == scan.captures
  {
    assert inputs0[..done] == inputs0;
  }

  /** The names the parameters' patterns bind. */
  method CollectNames(inputs: seq<Input>) returns (names: set<string>)
    ensures names == InputNames(inputs)
  {
    names := {};
    var i := 0;
    while i < |inputs|
      invariant 0 <= i <= |inputs|
      invariant names == InputNames(inputs[..i])
    {
      assert inputs[..i + 1][..i] == inputs[..i];
      names := names + Idents(inputs[i].pat);
      i := i + 1;
    }
    assert inputs[..i] == inputs;
  }

  /** The search for the `#[rest]` parameter. */
  method FindRest(inputs: seq<Input>) returns (rest: Option<nat>)
    ensures rest == RestIndex(inputs)
  {
    var index := 0;
    while index < |inputs|
      invariant 0 <= index <= |inputs|
      invariant forall k :: 0 <= k < index ==> !HasAttr(inputs[k].attrs, "rest")
    {
      if HasAttr(inputs[index].attrs, "rest") {
        return Some(index);
      }
      index := index + 1;
    }
    return None;
  }

  /** What is left of `extract_default_fail_action` once `errs` are reported. */
  ghost predicate DefaultsLeft(attrs0: seq<Attr>, action0: FailAction, attrs: seq<Attr>, action: FailAction, errs: seq<string>) {
    var total := DefaultsFrom(attrs0, action0);
    var rest := DefaultsFrom(attrs, action);
    total.attrs == rest.attrs && total.action == rest.action && total.errs == errs + rest.errs
  }

  /** Whether some parameter carries the attribute. */
  method AnyAttr(inputs: seq<Input>, name: string) returns (found: bool)
    ensures found == AnyHasAttr(inputs, name)
  {
    var k := 0;
    while k < |inputs|
      invariant 0 <= k <= |inputs|
      invariant forall m :: 0 <= m < k ==> !HasAttr(inputs[m].attrs, name)
    {
      if HasAttr(inputs[k].attrs, name) {
        return true;
      }
      k := k + 1;
    }
    return false;
  }

  lemma AppendAssoc4<T>(a: seq<T>, b: seq<T>, c: seq<T>, d: seq<T>, e: seq<T>)
    ensures (((a + b) + c) + d) + e == a + (((b + c) + d) + e)
  {
  }

  lemma AppendAssoc5<T>(a: seq<T>, b: seq<T>, c: seq<T>, d: seq<T>, e: seq<T>, f: seq<T>)
    ensures ((((a + b) + c) + d) + e) + f == a + ((((b + c) + d) + e) + f)
  {
  }

  lemma AppendAssoc<T>(a: seq<T>, b: seq<T>, c: seq<T>)
    ensures (a + b) + c == a + (b + c)
  {
  }

  lemma RepeatSnoc(msg: string, n: nat)
    ensures Repeat(msg, n) + [msg] == Repeat(msg, n + 1)
  {
  }
}
