/**
 * glib-macros/src/signals.rs: the `#[glib::signals]` attribute on an
 * `impl` block. Every method carrying `#[signal(...)]` attributes becomes
 * one entry of the generated `derived_signals()` list: the `#[signal]`
 * attributes are removed from the method, their arguments are gathered,
 * checked for duplicates by a builder, and turned into a
 * `Signal::builder(name)…build()` call. Types and expressions are opaque
 * strings; the emitted tokens are described by `SignalExpr`.
 */
module SignalsMacro {
  import opened Wrappers
  import opened Text

  /** `name`, `wrapper_type`, a flag, … optionally followed by `= value`. */
  datatype RawArg = RawArg(ident: string, value: Option<string>)

  /**
   * `SignalsArgs::parse`: the arguments of `#[glib::signals(...)]`.
   * `wrapper_type = T` is required (the last one wins); any other bare
   * identifier is skipped, and one followed by `=` stops the parse.
   */
  function ParseSignalsArgs(args: seq<RawArg>): (r: Result<string, string>)
    ensures r.Ok? ==> exists i :: 0 <= i < |args| && args[i] == RawArg("wrapper_type", Some(r.value))
    ensures (forall i :: 0 <= i < |args| ==> args[i].ident != "wrapper_type") ==> r.Err?
  {
    if |args| == 0 then Err("missing wrapper_type for #[glib::signals]")
    else
      var last := args[|args| - 1];
      match ParseSignalsArgs(args[..|args| - 1])
      case Err(e) =>
        if e == "missing wrapper_type for #[glib::signals]" && last.ident == "wrapper_type" && last.value.Some? then
          Ok(last.value.value)
        else if e == "missing wrapper_type for #[glib::signals]" && last.ident == "wrapper_type" then
          Err("expected `=`")
        else if e == "missing wrapper_type for #[glib::signals]" && last.value.Some? then
          Err("expected identifier")
        else Err(e)
      case Ok(ty) =>
        if last.ident == "wrapper_type" then
          (if last.value.Some? then Ok(last.value.value) else Err("expected `=`"))
        else if last.value.Some? then Err("expected identifier")
        else Ok(ty)
  }

  /** The bare flags a `#[signal]` may carry, in the order the builder calls are emitted. */
  datatype Flag = RunFirst | RunLast | RunCleanup | NoRecurse | Detailed | Action | NoHooks | MustCollect | Deprecated

  const ALL_FLAGS: seq<Flag> := [RunFirst, RunLast, RunCleanup, NoRecurse, Detailed, Action, NoHooks, MustCollect, Deprecated]

  /** The flag spelled `ident`. */
  function FlagNamed(ident: string): (r: Option<Flag>)
    ensures ident in {"name", "accumulator"} ==> r.None?
  {
    if ident == "run_first" then Some(RunFirst)
    else if ident == "run_last" then Some(RunLast)
    else if ident == "run_cleanup" then Some(RunCleanup)
    else if ident == "no_recurse" then Some(NoRecurse)
    else if ident == "detailed" then Some(Detailed)
    else if ident == "action" then Some(Action)
    else if ident == "no_hooks" then Some(NoHooks)
    else if ident == "must_collect" then Some(MustCollect)
    else if ident == "deprecated" then Some(Deprecated)
    else None
  }

  /** `SignalArg`: a parsed argument of `#[signal(...)]`. */
  datatype SignalArg = NameArg(name: string) | FlagArg(flag: Flag) | AccumulatorArg(expr: string)

  /**
   * `SignalArg::parse`: `name = "…"` and `accumulator = expr` take a value,
   * the flags are bare (a value after one breaks the comma-separated
   * list), anything else is an invalid argument.
   */
  function ParseSignalArg(raw: RawArg): (r: Result<SignalArg, string>)
    ensures r.Ok? <==>
      (raw.ident in {"name", "accumulator"} && raw.value.Some?) || (FlagNamed(raw.ident).Some? && raw.value.None?)
    ensures r.Ok? && r.value.FlagArg? ==> FlagNamed(raw.ident) == Some(r.value.flag)
    ensures raw.ident !in {"name", "accumulator"} && FlagNamed(raw.ident).None? ==> r == Err("invalid argument")
  {
    if raw.ident == "name" then
      (if raw.value.Some? then Ok(NameArg(raw.value.value)) else Err("expected `=`"))
    else if raw.ident == "accumulator" then
      (if raw.value.Some? then Ok(AccumulatorArg(raw.value.value)) else Err("expected `=`"))
    else match FlagNamed(raw.ident)
      case Some(f) => if raw.value.None? then Ok(FlagArg(f)) else Err("expected `,`")
      case None => Err("invalid argument")
  }

  /** The arguments of one attribute list, or the first argument's error. */
  function ParseSignalArgs(raws: seq<RawArg>): (r: Result<seq<SignalArg>, string>)
    ensures r.Ok? <==> forall i :: 0 <= i < |raws| ==> ParseSignalArg(raws[i]).Ok?
    ensures r.Ok? ==> |r.value| == |raws| && forall i :: 0 <= i < |raws| ==> ParseSignalArg(raws[i]) == Ok(r.value[i])
  {
    if |raws| == 0 then Ok([])
    else match ParseSignalArg(raws[0])
      case Err(e) => Err(e)
      case Ok(a) =>
        match ParseSignalArgs(raws[1..])
        case Err(e) => Err(e)
        case Ok(rest) => Ok([a] + rest)
  }

  /** The three shapes of an attribute: `#[p]`, `#[p(...)]` and `#[p = v]`. */
  datatype Meta = PathMeta | ListMeta(args: seq<RawArg>) | NameValueMeta(value: string)

  datatype Attribute = Attribute(path: string, meta: Meta)

  predicate IsSignalAttr(a: Attribute) { a.path == "signal" }

  /** `#[allow(dead_code)]`. */
  const ALLOW_DEAD_CODE := Attribute("allow", ListMeta([RawArg("dead_code", None)]))

  /** `parse_signal_attr`: `#[signal]` has no arguments, `#[signal(...)]` its list, `#[signal = v]` is invalid. */
  function ParseSignalAttr(meta: Meta): (r: Result<seq<SignalArg>, string>)
    ensures meta.PathMeta? ==> r == Ok([])
    ensures meta.NameValueMeta? ==> r == Err("invalid attribute")
  {
    match meta
    case PathMeta => Ok([])
    case ListMeta(raws) => ParseSignalArgs(raws)
    case NameValueMeta(_) => Err("invalid attribute")
  }

  /**
   * What `parse_signal_attrs` gathers from `attrs`: `None` when no
   * attribute is `#[signal]`, else the arguments of all of them, in
   * order; the first attribute that fails to parse gives the error.
   */
  function CollectSignalArgs(attrs: seq<Attribute>): Result<Option<seq<SignalArg>>, string> {
    if |attrs| == 0 then Ok(None)
    else
      var last := attrs[|attrs| - 1];
      match CollectSignalArgs(attrs[..|attrs| - 1])
      case Err(e) => Err(e)
      case Ok(acc) =>
        if !IsSignalAttr(last) then Ok(acc)
        else match ParseSignalAttr(last.meta)
          case Err(e) => Err(e)
          case Ok(more) => Ok(Some((if acc.Some? then acc.value else []) + more))
  }

  /** The attributes that are not `#[signal]`, in order. */
  function NonSignalAttrs(attrs: seq<Attribute>): (r: seq<Attribute>)
    ensures |r| <= |attrs|
  {
    if |attrs| == 0 then []
    else NonSignalAttrs(attrs[..|attrs| - 1]) + (if IsSignalAttr(attrs[|attrs| - 1]) then [] else [attrs[|attrs| - 1]])
  }

  /** What remains are attributes of the input, none of them `#[signal]`. */
  lemma {:induction false} NonSignalOnly(attrs: seq<Attribute>)
    ensures forall a :: a in NonSignalAttrs(attrs) ==> a in attrs && !IsSignalAttr(a)
  {
    if |attrs| > 0 {
      var init, last := attrs[..|attrs| - 1], attrs[|attrs| - 1];
      NonSignalOnly(init);
      forall a | a in NonSignalAttrs(attrs)
        ensures a in attrs && !IsSignalAttr(a)
      {
        if a in NonSignalAttrs(init) {
          assert a in init;
        }
      }
    }
  }

  /** The gathered arguments are `None` exactly when no attribute is `#[signal]`. */
  lemma {:induction false} CollectNoneIffNoSignal(attrs: seq<Attribute>)
    requires CollectSignalArgs(attrs).Ok?
    ensures CollectSignalArgs(attrs).value.None? <==> forall i :: 0 <= i < |attrs| ==> !IsSignalAttr(attrs[i])
  {
    if |attrs| > 0 {
      var init := attrs[..|attrs| - 1];
      CollectNoneIffNoSignal(init);
      assert forall i :: 0 <= i < |init| ==> init[i] == attrs[i];
    }
  }

  /** Without `#[signal]` attributes nothing is removed. */
  lemma {:induction false} NonSignalKeepsAll(attrs: seq<Attribute>)
    requires forall i :: 0 <= i < |attrs| ==> !IsSignalAttr(attrs[i])
    ensures NonSignalAttrs(attrs) == attrs
  {
    if |attrs| > 0 {
      var init, last := attrs[..|attrs| - 1], attrs[|attrs| - 1];
      assert forall i :: 0 <= i < |init| ==> init[i] == attrs[i];
      NonSignalKeepsAll(init);
      assert !IsSignalAttr(last);
      assert NonSignalAttrs(attrs) == NonSignalAttrs(init) + [last];
      assert attrs == init + [last];
    }
  }

  /** Once a `#[signal]` attribute fails to parse, the attributes after it do not matter. */
  lemma {:induction false} CollectErrFrom(attrs: seq<Attribute>, j: nat)
    requires j < |attrs| && CollectSignalArgs(attrs[..j]).Ok?
    requires IsSignalAttr(attrs[j]) && ParseSignalAttr(attrs[j].meta).Err?
    ensures CollectSignalArgs(attrs) == Err(ParseSignalAttr(attrs[j].meta).error)
    decreases |attrs| - j
  {
    var init := attrs[..|attrs| - 1];
    if j == |attrs| - 1 {
      assert init == attrs[..j];
    } else {
      assert init[..j] == attrs[..j] && init[j] == attrs[j];
      CollectErrFrom(init, j);
    }
  }

  /** One step of the walk: the prefix grows by the attribute at `done`. */
  lemma AttrStep(attrs0: seq<Attribute>, done: nat)
    requires done < |attrs0|
    ensures NonSignalAttrs(attrs0[..done + 1]) ==
      NonSignalAttrs(attrs0[..done]) + (if IsSignalAttr(attrs0[done]) then [] else [attrs0[done]])
    ensures CollectSignalArgs(attrs0[..done]).Ok? && !IsSignalAttr(attrs0[done]) ==>
      CollectSignalArgs(attrs0[..done + 1]) == CollectSignalArgs(attrs0[..done])
    ensures CollectSignalArgs(attrs0[..done]).Ok? && IsSignalAttr(attrs0[done]) ==>
      CollectSignalArgs(attrs0[..done + 1]) ==
        match ParseSignalAttr(attrs0[done].meta)
        case Err(e) => Err(e)
        case Ok(more) =>
          var acc := CollectSignalArgs(attrs0[..done]).value;
          Ok(Some((if acc.Some? then acc.value else []) + more))
  {
    assert attrs0[..done + 1][..done] == attrs0[..done];
  }

  /**
   * The state of `parse_signal_attrs` after the first `done` attributes:
   * the kept ones sit before `idx`, the unvisited ones from `idx` on.
   */
  ghost predicate AttrWalk(attrs0: seq<Attribute>, attrs: seq<Attribute>, args: Option<seq<SignalArg>>, idx: nat, done: nat) {
    done <= |attrs0|
    && idx == |NonSignalAttrs(attrs0[..done])| <= |attrs|
    && attrs[..idx] == NonSignalAttrs(attrs0[..done]) && attrs[idx..] == attrs0[done..]
    && CollectSignalArgs(attrs0[..done]) == Ok(args)
  }

  /** The attribute the walk looks at next is the next unvisited one of the original list. */
  lemma WalkHead(attrs0: seq<Attribute>, attrs: seq<Attribute>, args: Option<seq<SignalArg>>, idx: nat, done: nat)
    requires idx < |attrs| && AttrWalk(attrs0, attrs, args, idx, done)
    ensures done < |attrs0| && attrs[idx] == attrs0[done]
  {
    assert attrs[idx..][0] == attrs0[done..][0];
  }

  /** Stepping over an attribute that is not `#[signal]` keeps it before `idx`. */
  lemma WalkKeep(attrs0: seq<Attribute>, attrs: seq<Attribute>, args: Option<seq<SignalArg>>, idx: nat, done: nat)
    requires idx < |attrs| && AttrWalk(attrs0, attrs, args, idx, done) && !IsSignalAttr(attrs[idx])
    ensures AttrWalk(attrs0, attrs, args, idx + 1, done + 1)
  {
    WalkHead(attrs0, attrs, args, idx, done);
    AttrStep(attrs0, done);
    assert attrs[idx + 1..] == attrs[idx..][1..] && attrs0[done + 1..] == attrs0[done..][1..];
    assert attrs[..idx + 1] == attrs[..idx] + [attrs[idx]];
  }

  /** Removing a `#[signal]` attribute that parses appends its arguments. */
  lemma WalkRemove(attrs0: seq<Attribute>, attrs: seq<Attribute>, args: Option<seq<SignalArg>>, idx: nat, done: nat)
    requires idx < |attrs| && AttrWalk(attrs0, attrs, args, idx, done) && IsSignalAttr(attrs[idx])
    requires ParseSignalAttr(attrs[idx].meta).Ok?
    ensures AttrWalk(attrs0, attrs[..idx] + attrs[idx + 1..],
      Some((if args.Some? then args.value else []) + ParseSignalAttr(attrs[idx].meta).value), idx, done + 1)
  {
    WalkHead(attrs0, attrs, args, idx, done);
    AttrStep(attrs0, done);
    assert attrs[idx + 1..] == attrs[idx..][1..] && attrs0[done + 1..] == attrs0[done..][1..];
    var attrs' := attrs[..idx] + attrs[idx + 1..];
    assert attrs'[..idx] == attrs[..idx] && attrs'[idx..] == attrs[idx + 1..];
  }

  /** A `#[signal]` attribute that does not parse is the error of the whole list. */
  lemma WalkErr(attrs0: seq<Attribute>, attrs: seq<Attribute>, args: Option<seq<SignalArg>>, idx: nat, done: nat)
    requires idx < |attrs| && AttrWalk(attrs0, attrs, args, idx, done) && IsSignalAttr(attrs[idx])
    requires ParseSignalAttr(attrs[idx].meta).Err?
    ensures CollectSignalArgs(attrs0) == Err(ParseSignalAttr(attrs[idx].meta).error)
  {
    WalkHead(attrs0, attrs, args, idx, done);
    CollectErrFrom(attrs0, done);
  }

  /** One turn of the `parse_signal_attrs` loop: the attribute at `idx` is removed and parsed, or stepped over. */
  method AttrTurn(attrs0: seq<Attribute>, attrs: seq<Attribute>, args: Option<seq<SignalArg>>, idx: nat, ghost done: nat)
    returns (attrs': seq<Attribute>, args': Option<seq<SignalArg>>, idx': nat, ghost done': nat, err: Option<string>)
    requires idx < |attrs| && AttrWalk(attrs0, attrs, args, idx, done)
    ensures err.None? ==> AttrWalk(attrs0, attrs', args', idx', done') && |attrs'| - idx' < |attrs| - idx
    ensures err.Some? ==> CollectSignalArgs(attrs0) == Err(err.value)
  {
    var attr := attrs[idx];
    done' := done + 1;
    if IsSignalAttr(attr) {
      var parsed := ParseSignalAttr(attr.meta);
      attrs' := attrs[..idx] + attrs[idx + 1..];
      if parsed.Err? {
        WalkErr(attrs0, attrs, args, idx, done);
        return attrs', args, idx, done', Some(parsed.error);
      }
      WalkRemove(attrs0, attrs, args, idx, done);
      args' := Some((if args.Some? then args.value else []) + parsed.value);
      idx' := idx;
    } else {
      WalkKeep(attrs0, attrs, args, idx, done);
      attrs', args', idx' := attrs, args, idx + 1;
    }
    err := None;
  }

  /**
   * `parse_signal_attrs`: walks the attribute vector with an index,
   * removing each `#[signal]` attribute in place and appending its
   * arguments, and stepping over every other attribute.
   */
  method ParseSignalAttrs(attrs0: seq<Attribute>) returns (attrs: seq<Attribute>, r: Result<Option<seq<SignalArg>>, string>)
    ensures r == CollectSignalArgs(attrs0)
    ensures r.Ok? ==> attrs == NonSignalAttrs(attrs0)
  {
    attrs := attrs0;
    var args: Option<seq<SignalArg>> := None;
    var idx: nat := 0;
    ghost var done: nat := 0;
    assert attrs0[..0] == [];
    while idx < |attrs|
      invariant AttrWalk(attrs0, attrs, args, idx, done)
      decreases |attrs| - idx
    {
      var err;
      attrs, args, idx, done, err := AttrTurn(attrs0, attrs, args, idx, done);
      if err.Some? {
        return attrs, Err(err.value);
      }
    }
    assert attrs0[done..] == [];
    assert attrs0[..done] == attrs0;
    assert attrs == attrs[..idx];
    r := Ok(args);
  }

  /** A method argument: a receiver (`self`, `&self`, `&mut self`) or a typed pattern. */
  datatype FnArg = Receiver(reference: bool, mutable: bool) | Typed(ty: string)

  /** The signature and shape of a method in the `impl` block. */
  datatype SignalFn = SignalFn(ident: string, inputs: seq<FnArg>, output: Option<string>, bodyEmpty: bool, attrs: seq<Attribute>)

  /** The first input is `&self`, neither by value nor mutable. */
  predicate TakesRefSelf(inputs: seq<FnArg>) {
    |inputs| > 0 && inputs[0] == Receiver(true, false)
  }

  /** The types of the typed inputs, receivers left out, in declaration order. */
  function ParamTypes(inputs: seq<FnArg>): (types: seq<string>)
    ensures |types| <= |inputs|
  {
    if |inputs| == 0 then []
    else (if inputs[0].Typed? then [inputs[0].ty] else []) + ParamTypes(inputs[1..])
  }

  /** For `&self` followed by typed inputs, the parameter types are those inputs' types, one for one. */
  lemma {:induction false} ParamTypesAfterSelf(inputs: seq<FnArg>)
    requires TakesRefSelf(inputs)
    requires forall k :: 1 <= k < |inputs| ==> inputs[k].Typed?
    ensures |ParamTypes(inputs)| == |inputs| - 1
    ensures forall k :: 1 <= k < |inputs| ==> ParamTypes(inputs)[k - 1] == inputs[k].ty
  {
    AllTyped(inputs[1..]);
  }

  lemma {:induction false} AllTyped(inputs: seq<FnArg>)
    requires forall k :: 0 <= k < |inputs| ==> inputs[k].Typed?
    ensures |ParamTypes(inputs)| == |inputs|
    ensures forall k :: 0 <= k < |inputs| ==> ParamTypes(inputs)[k] == inputs[k].ty
  {
    if |inputs| > 0 {
      AllTyped(inputs[1..]);
    }
  }

  /** The optional settings a builder has gathered from the arguments. */
  datatype Settings = Settings(name: Option<string>, flags: set<Flag>, accumulator: Option<string>)

  const NO_SETTINGS := Settings(None, {}, None)

  /**
   * `SignalBuilder::add_arg`: `name` may be given again and the last one
   * wins; a flag or the accumulator given a second time is a "duplicate
   * argument".
   */
  function AddArg(s: Settings, arg: SignalArg): (r: Result<Settings, string>)
    ensures arg.NameArg? ==> r == Ok(s.(name := Some(arg.name)))
    ensures arg.FlagArg? ==> (r.Ok? <==> arg.flag !in s.flags)
    ensures arg.FlagArg? && r.Ok? ==> r.value == s.(flags := s.flags + {arg.flag})
    ensures arg.AccumulatorArg? ==> (r.Ok? <==> s.accumulator.None?)
    ensures arg.AccumulatorArg? && r.Ok? ==> r.value == s.(accumulator := Some(arg.expr))
    ensures r.Err? ==> r.error == "duplicate argument"
  {
    match arg
    case NameArg(n) => Ok(s.(name := Some(n)))
    case FlagArg(f) => if f in s.flags then Err("duplicate argument") else Ok(s.(flags := s.flags + {f}))
    case AccumulatorArg(e) =>
      if s.accumulator.Some? then Err("duplicate argument") else Ok(s.(accumulator := Some(e)))
  }

  /** `add_arg` over the arguments in order, stopping at the first error. */
  function AddArgs(s: Settings, args: seq<SignalArg>): (r: Result<Settings, string>)
    ensures r.Err? ==> r.error == "duplicate argument"
    decreases |args|
  {
    if |args| == 0 then Ok(s)
    else match AddArg(s, args[0])
      case Err(e) => Err(e)
      case Ok(s') => AddArgs(s', args[1..])
  }

  lemma {:induction false} AddArgsSnoc(s: Settings, args: seq<SignalArg>, arg: SignalArg)
    ensures AddArgs(s, args + [arg]) ==
      match AddArgs(s, args) case Err(e) => Err(e) case Ok(t) => AddArg(t, arg)
    decreases |args|
  {
    if |args| == 0 {
      assert args + [arg] == [arg];
    } else {
      assert (args + [arg])[1..] == args[1..] + [arg];
      match AddArg(s, args[0])
      case Err(_) =>
      case Ok(s') => AddArgsSnoc(s', args[1..], arg);
    }
  }

  /** Two arguments claim the same builder slot that may be filled once. */
  predicate Clash(a: SignalArg, b: SignalArg) {
    (a.FlagArg? && b.FlagArg? && a.flag == b.flag) || (a.AccumulatorArg? && b.AccumulatorArg?)
  }

  /** The arguments claim no once-only slot twice, nor one `s` has already filled. */
  predicate Distinct(s: Settings, args: seq<SignalArg>) {
    && (forall i, j :: 0 <= i < j < |args| ==> !Clash(args[i], args[j]))
    && (forall i :: 0 <= i < |args| && args[i].FlagArg? ==> args[i].flag !in s.flags)
    && (s.accumulator.Some? ==> forall i :: 0 <= i < |args| ==> !args[i].AccumulatorArg?)
  }

  /** The flags among the arguments. */
  function FlagsIn(args: seq<SignalArg>): set<Flag> {
    set i | 0 <= i < |args| && args[i].FlagArg? :: args[i].flag
  }

  /** The name the last `name` argument gives, else `dflt`. */
  function LastName(args: seq<SignalArg>, dflt: Option<string>): Option<string> {
    if |args| == 0 then dflt
    else if args[|args| - 1].NameArg? then Some(args[|args| - 1].name)
    else LastName(args[..|args| - 1], dflt)
  }

  /**
   * The builder accepts the arguments exactly when no flag and no
   * accumulator is repeated; it then holds every flag given, the last
   * name given, and the accumulator if one was given.
   */
  lemma {:induction false} AddArgsAccepts(s: Settings, args: seq<SignalArg>)
    ensures AddArgs(s, args).Ok? <==> Distinct(s, args)
    ensures AddArgs(s, args).Ok? ==>
      && AddArgs(s, args).value.flags == s.flags + FlagsIn(args)
      && AddArgs(s, args).value.name == LastName(args, s.name)
      && (AddArgs(s, args).value.accumulator.Some? <==>
            s.accumulator.Some? || exists i :: 0 <= i < |args| && args[i].AccumulatorArg?)
    decreases |args|
  {
    if |args| > 0 {
      var init, last := args[..|args| - 1], args[|args| - 1];
      assert args == init + [last];
      AddArgsSnoc(s, init, last);
      AddArgsAccepts(s, init);
      assert forall i :: 0 <= i < |init| ==> init[i] == args[i];
      FlagsInSnoc(args);
      if AddArgs(s, init).Ok? {
        var t := AddArgs(s, init).value;
        if last.FlagArg? && last.flag in t.flags && last.flag !in s.flags {
          var i :| 0 <= i < |init| && init[i].FlagArg? && init[i].flag == last.flag;
          assert Clash(args[i], args[|args| - 1]);
        }
        if last.AccumulatorArg? && t.accumulator.Some? && s.accumulator.None? {
          var i :| 0 <= i < |init| && init[i].AccumulatorArg?;
          assert Clash(args[i], args[|args| - 1]);
        }
      }
    }
  }

  /** The flags of a list are those before its last argument, and that argument's own flag. */
  lemma FlagsInSnoc(args: seq<SignalArg>)
    requires |args| > 0
    ensures var last := args[|args| - 1];
      FlagsIn(args) == FlagsIn(args[..|args| - 1]) + (if last.FlagArg? then {last.flag} else {})
  {
    var init, last := args[..|args| - 1], args[|args| - 1];
    forall f | f in FlagsIn(args) ensures f in FlagsIn(init) + (if last.FlagArg? then {last.flag} else {}) {
      var i :| 0 <= i < |args| && args[i].FlagArg? && args[i].flag == f;
      if i < |init| { assert init[i] == args[i]; }
    }
    forall f | f in FlagsIn(init) ensures f in FlagsIn(args) {
      var i :| 0 <= i < |init| && init[i].FlagArg? && init[i].flag == f;
      assert args[i] == init[i];
    }
  }

  /** Which closure turns the class handler's return value into an optional `Value`. */
  datatype ReturnWrapper = ToValueOf(ty: Option<string>) | UnitNone

  /** A wrapper that names the type to convert from, or none for a unit return. */
  predicate WellFormedWrapper(w: ReturnWrapper) {
    w.ToValueOf? ==> w.ty.Some?
  }

  /** The class handler's return wrapper as written: the `ToValue` conversion of the declared return type. */
  function ReturnWrapperAsWritten(output: Option<string>): ReturnWrapper {
    ToValueOf(output)
  }

  /** A class handler of a method with a body and no return type names no type to convert from. */
  lemma UnitHandlerAsWritten()
    ensures !WellFormedWrapper(ReturnWrapperAsWritten(None))
  {
  }

  /** The evidently intended choice: convert the declared type, or give `None` for a unit return. */
  function ReturnWrapperFor(output: Option<string>): (w: ReturnWrapper)
    ensures WellFormedWrapper(w)
    ensures w.ToValueOf? <==> output.Some?
    ensures w.ToValueOf? ==> w.ty == output
  {
    if output.Some? then ToValueOf(output) else UnitNone
  }

  /** The `Signal::builder(name)…build()` expression generated for one signal. */
  datatype SignalExpr = SignalExpr(
    name: string,
    paramTypes: Option<seq<string>>,
    returnType: Option<string>,
    classHandler: Option<ReturnWrapper>,
    flags: seq<Flag>,
    accumulator: Option<string>)

  /** The flag calls emitted for `flags`, in the fixed builder order. */
  function EmittedFlags(flags: set<Flag>): (r: seq<Flag>)
    ensures forall f :: f in r <==> f in flags
  {
    AllFlagsListed();
    Pick(ALL_FLAGS, flags)
  }

  lemma AllFlagsListed()
    ensures forall f: Flag :: f in ALL_FLAGS
  {
    forall f: Flag
      ensures f in ALL_FLAGS
    {
      match f
      case RunFirst => assert ALL_FLAGS[0] == f;
      case RunLast => assert ALL_FLAGS[1] == f;
      case RunCleanup => assert ALL_FLAGS[2] == f;
      case NoRecurse => assert ALL_FLAGS[3] == f;
      case Detailed => assert ALL_FLAGS[4] == f;
      case Action => assert ALL_FLAGS[5] == f;
      case NoHooks => assert ALL_FLAGS[6] == f;
      case MustCollect => assert ALL_FLAGS[7] == f;
      case Deprecated => assert ALL_FLAGS[8] == f;
    }
  }

  function Pick(order: seq<Flag>, flags: set<Flag>): (r: seq<Flag>)
    ensures forall f :: f in r <==> f in order && f in flags
  {
    if |order| == 0 then [] else (if order[0] in flags then [order[0]] else []) + Pick(order[1..], flags)
  }

  /**
   * `SignalBuilder::expr`: the given name or the method name made
   * dashed; `param_types` only when there are parameters; a class handler
   * only for a method with a body; the flags that were given; and the
   * accumulator when one was given.
   */
  function SignalExprOf(fnIdent: string, paramTypes: seq<string>, returnType: Option<string>, classHandler: bool,
                        s: Settings): (e: SignalExpr)
    ensures e.name == if s.name.Some? then s.name.value else DashedName(fnIdent)
    ensures e.paramTypes.Some? <==> |paramTypes| > 0
    ensures e.classHandler.Some? <==> classHandler
    ensures e.classHandler.Some? ==> WellFormedWrapper(e.classHandler.value)
    ensures forall f :: f in e.flags <==> f in s.flags
    ensures e.accumulator == s.accumulator
  {
    SignalExpr(
      if s.name.Some? then s.name.value else DashedName(fnIdent),
      if |paramTypes| > 0 then Some(paramTypes) else None,
      returnType,
      if classHandler then Some(ReturnWrapperFor(returnType)) else None,
      EmittedFlags(s.flags),
      s.accumulator)
  }

  /** `SignalBuilder::expr` as written: no `.accumulator(...)` call, and the `ToValue` wrapper always. */
  function SignalExprAsWritten(fnIdent: string, paramTypes: seq<string>, returnType: Option<string>, classHandler: bool,
                               s: Settings): SignalExpr
  {
    SignalExprOf(fnIdent, paramTypes, returnType, classHandler, s).(
      accumulator := None,
      classHandler := if classHandler then Some(ReturnWrapperAsWritten(returnType)) else None)
  }

  /** As written, `#[signal(accumulator = f)]` is accepted and then dropped from the generated signal. */
  lemma AccumulatorDroppedAsWritten(fnIdent: string, paramTypes: seq<string>, returnType: Option<string>, classHandler: bool,
                                    expr: string)
    ensures AddArgs(NO_SETTINGS, [AccumulatorArg(expr)]).Ok?
    ensures SignalExprAsWritten(fnIdent, paramTypes, returnType, classHandler,
              AddArgs(NO_SETTINGS, [AccumulatorArg(expr)]).value).accumulator.None?
    ensures SignalExprOf(fnIdent, paramTypes, returnType, classHandler,
              AddArgs(NO_SETTINGS, [AccumulatorArg(expr)]).value).accumulator == Some(expr)
  {
    assert [AccumulatorArg(expr)][1..] == [];
  }

  /** `SignalBuilder`: the fixed parts taken from the method, and the settings `add_arg` fills in. */
  class SignalBuilder {
    const fnIdent: string
    const paramTypes: seq<string>
    const returnType: Option<string>
    const classHandler: bool
    var name: Option<string>
    var flags: set<Flag>
    var accumulator: Option<string>

    function Current(): Settings
      reads this
    {
      Settings(name, flags, accumulator)
    }

    /** `SignalBuilder::new` before the arguments are added. */
    constructor (f: SignalFn)
      ensures fnIdent == f.ident && paramTypes == ParamTypes(f.inputs) && returnType == f.output
      ensures classHandler == !f.bodyEmpty
      ensures Current() == NO_SETTINGS
    {
      fnIdent := f.ident;
      paramTypes := ParamTypes(f.inputs);
      returnType := f.output;
      classHandler := !f.bodyEmpty;
      name, flags, accumulator := None, {}, None;
    }

    /** `add_arg`: fills the argument's slot, or reports a duplicate and changes nothing. */
    method AddArgument(arg: SignalArg) returns (ok: bool)
      modifies this
      ensures ok <==> AddArg(old(Current()), arg).Ok?
      ensures Current() == if ok then AddArg(old(Current()), arg).value else old(Current())
    {
      match arg
      case NameArg(n) =>
        name := Some(n);
        ok := true;
      case FlagArg(f) =>
        ok := f !in flags;
        if ok {
          flags := flags + {f};
        }
      case AccumulatorArg(e) =>
        ok := accumulator.None?;
        if ok {
          accumulator := Some(e);
        }
    }

    /** `expr`. */
    function Expr(): (e: SignalExpr)
      reads this
      ensures e == SignalExprOf(fnIdent, paramTypes, returnType, classHandler, Current())
    {
      SignalExprOf(fnIdent, paramTypes, returnType, classHandler, Current())
    }
  }

  const NEEDS_REF_SELF := "#[signal] function needs a &self parameter"

  /** `SignalBuilder::new`: checks the receiver, then adds the arguments one by one. */
  method NewBuilder(f: SignalFn, args: seq<SignalArg>) returns (r: Result<SignalBuilder, string>)
    ensures r.Ok? <==> TakesRefSelf(f.inputs) && AddArgs(NO_SETTINGS, args).Ok?
    ensures r.Err? ==> r.error == if TakesRefSelf(f.inputs) then "duplicate argument" else NEEDS_REF_SELF
    ensures r.Ok? ==> fresh(r.value)
    ensures r.Ok? ==>
      r.value.Expr() == SignalExprOf(f.ident, ParamTypes(f.inputs), f.output, !f.bodyEmpty, AddArgs(NO_SETTINGS, args).value)
  {
    if !TakesRefSelf(f.inputs) {
      return Err(NEEDS_REF_SELF);
    }
    var b := new SignalBuilder(f);
    var i := 0;
    while i < |args|
      invariant 0 <= i <= |args|
      invariant AddArgs(NO_SETTINGS, args[..i]) == Ok(b.Current())
      invariant b.fnIdent == f.ident && b.paramTypes == ParamTypes(f.inputs)
      invariant b.returnType == f.output && b.classHandler == !f.bodyEmpty
    {
      assert args[..i + 1] == args[..i] + [args[i]];
      AddArgsSnoc(NO_SETTINGS, args[..i], args[i]);
      var ok := b.AddArgument(args[i]);
      if !ok {
        AddArgsFailStays(NO_SETTINGS, args[..i + 1], args[i + 1..]);
        assert args[..i + 1] + args[i + 1..] == args;
        return Err("duplicate argument");
      }
      i := i + 1;
    }
    assert args[..i] == args;
    r := Ok(b);
  }

  /** Once an argument fails, the later ones do not matter. */
  lemma {:induction false} AddArgsFailStays(s: Settings, args: seq<SignalArg>, more: seq<SignalArg>)
    requires AddArgs(s, args).Err?
    ensures AddArgs(s, args + more).Err?
    decreases |args|
  {
    assert |args| > 0;
    assert (args + more)[0] == args[0];
    assert (args + more)[1..] == args[1..] + more;
    match AddArg(s, args[0])
    case Err(_) =>
    case Ok(s') => AddArgsFailStays(s', args[1..], more);
  }

  /** An item of the `impl` block. */
  datatype ImplItem = FnItem(f: SignalFn) | OtherItem(text: string)

  /** The signal one item contributes: none for a non-method or a method without `#[signal]`. */
  function ItemSignal(item: ImplItem): Result<Option<SignalExpr>, string> {
    match item
    case OtherItem(_) => Ok(None)
    case FnItem(f) =>
      match CollectSignalArgs(f.attrs)
      case Err(e) => Err(e)
      case Ok(None) => Ok(None)
      case Ok(Some(args)) =>
        if !TakesRefSelf(f.inputs) then Err(NEEDS_REF_SELF)
        else match AddArgs(NO_SETTINGS, args)
          case Err(e) => Err(e)
          case Ok(s) => Ok(Some(SignalExprOf(f.ident, ParamTypes(f.inputs), f.output, !f.bodyEmpty, s)))
  }

  /**
   * The item as it is emitted: a signal method loses its `#[signal]`
   * attributes and, when its body is empty, gains `#[allow(dead_code)]`.
   */
  function ItemAfter(item: ImplItem): (r: ImplItem)
    ensures r.FnItem? ==> forall a :: a in r.f.attrs ==> !IsSignalAttr(a)
  {
    match item
    case OtherItem(_) => item
    case FnItem(f) =>
      if CollectSignalArgs(f.attrs).Ok? && CollectSignalArgs(f.attrs).value.None? then
        CollectNoneIffNoSignal(f.attrs);
        item
      else
        NonSignalOnly(f.attrs);
        FnItem(f.(attrs := NonSignalAttrs(f.attrs) + (if f.bodyEmpty then [ALLOW_DEAD_CODE] else [])))
  }

  /** `parse_signals`: the signals of the items in order, or the first error. */
  function SignalsOf(items: seq<ImplItem>): Result<seq<SignalExpr>, string> {
    if |items| == 0 then Ok([])
    else match SignalsOf(items[..|items| - 1])
      case Err(e) => Err(e)
      case Ok(ss) =>
        match ItemSignal(items[|items| - 1])
        case Err(e) => Err(e)
        case Ok(None) => Ok(ss)
        case Ok(Some(x)) => Ok(ss + [x])
  }

  /** An `impl` block without `#[signal]` attributes yields no signal and is emitted unchanged. */
  lemma {:induction false} NoSignalAttrsNoSignals(items: seq<ImplItem>)
    requires forall k, a :: 0 <= k < |items| && items[k].FnItem? && a in items[k].f.attrs ==> !IsSignalAttr(a)
    ensures SignalsOf(items) == Ok([])
    ensures forall k :: 0 <= k < |items| ==> ItemAfter(items[k]) == items[k]
  {
    forall k | 0 <= k < |items| && items[k].FnItem?
      ensures CollectSignalArgs(items[k].f.attrs) == Ok(None)
    {
      NoSignalCollectsNone(items[k].f.attrs);
    }
    if |items| > 0 {
      NoSignalAttrsNoSignals(items[..|items| - 1]);
    }
  }

  lemma {:induction false} NoSignalCollectsNone(attrs: seq<Attribute>)
    requires forall a :: a in attrs ==> !IsSignalAttr(a)
    ensures CollectSignalArgs(attrs) == Ok(None)
  {
    if |attrs| > 0 {
      NoSignalCollectsNone(attrs[..|attrs| - 1]);
    }
  }

  /** Once an item fails, the items after it do not matter: the block fails with that item's error. */
  lemma {:induction false} SignalsErrFrom(items: seq<ImplItem>, j: nat)
    requires j < |items| && SignalsOf(items[..j]).Ok? && ItemSignal(items[j]).Err?
    ensures SignalsOf(items) == Err(ItemSignal(items[j]).error)
    decreases |items| - j
  {
    var init := items[..|items| - 1];
    if j == |items| - 1 {
      assert init == items[..j];
    } else {
      assert init[..j] == items[..j] && init[j] == items[j];
      SignalsErrFrom(init, j);
    }
  }

  /** The body of the `parse_signals` loop for one item. */
  method ParseItem(item: ImplItem) returns (after: ImplItem, r: Result<Option<SignalExpr>, string>)
    ensures r == ItemSignal(item)
    ensures r.Ok? ==> after == ItemAfter(item)
  {
    after := item;
    match item
    case OtherItem(_) =>
      r := Ok(None);
    case FnItem(f) =>
      var attrs, collected := ParseSignalAttrs(f.attrs);
      if collected.Err? {
        return after, Err(collected.error);
      }
      if collected.value.None? {
        return after, Ok(None);
      }
      if f.bodyEmpty {
        attrs := attrs + [ALLOW_DEAD_CODE];
      }
      after := FnItem(f.(attrs := attrs));
      assert after == ItemAfter(item);
      var args := collected.value.value;
      var built := NewBuilder(f, args);
      if built.Err? {
        return after, Err(built.error);
      }
      var expr := built.value.Expr();
      assert expr == SignalExprOf(f.ident, ParamTypes(f.inputs), f.output, !f.bodyEmpty, AddArgs(NO_SETTINGS, args).value);
      r := Ok(Some(expr));
  }

  /** One more item extends the signals of the items before it by the item's own signal. */
  lemma SignalsStep(items0: seq<ImplItem>, i: nat, signals: seq<SignalExpr>, one: Option<SignalExpr>)
    requires i < |items0| && SignalsOf(items0[..i]) == Ok(signals) && ItemSignal(items0[i]) == Ok(one)
    ensures SignalsOf(items0[..i + 1]) == Ok(if one.Some? then signals + [one.value] else signals)
  {
    assert items0[..i + 1][..i] == items0[..i];
  }

  /** The state of `parse_signals` after the first `i` items. */
  ghost predicate Walked(items0: seq<ImplItem>, items: seq<ImplItem>, signals: seq<SignalExpr>, i: nat) {
    i <= |items0| && |items| == |items0| && SignalsOf(items0[..i]) == Ok(signals)
    && (forall k :: 0 <= k < i ==> items[k] == ItemAfter(items0[k]))
    && (forall k :: i <= k < |items0| ==> items[k] == items0[k])
  }

  /** One turn of the `parse_signals` loop: item `i` is rewritten and its signal, if any, appended. */
  method ParseTurn(items0: seq<ImplItem>, items: seq<ImplItem>, signals: seq<SignalExpr>, i: nat)
    returns (items': seq<ImplItem>, signals': seq<SignalExpr>, err: Option<string>)
    requires i < |items0| && Walked(items0, items, signals, i)
    ensures err.None? ==> Walked(items0, items', signals', i + 1)
    ensures err.Some? ==> SignalsOf(items0) == Err(err.value)
  {
    var after, one := ParseItem(items0[i]);
    items' := items[i := after];
    if one.Err? {
      SignalsErrFrom(items0, i);
      return items', signals, Some(one.error);
    }
    SignalsStep(items0, i, signals, one.value);
    signals' := if one.value.Some? then signals + [one.value.value] else signals;
    err := None;
  }

  /**
   * `parse_signals`: goes through the items, rewriting each signal
   * method's attributes in place and building its signal.
   */
  method ParseSignals(items0: seq<ImplItem>) returns (items: seq<ImplItem>, r: Result<seq<SignalExpr>, string>)
    ensures r == SignalsOf(items0)
    ensures r.Ok? ==> |items| == |items0| && forall k :: 0 <= k < |items0| ==> items[k] == ItemAfter(items0[k])
  {
    items := items0;
    var signals: seq<SignalExpr> := [];
    var i := 0;
    assert items0[..0] == [];
    while i < |items0|
      invariant Walked(items0, items, signals, i)
    {
      var err;
      items, signals, err := ParseTurn(items0, items, signals, i);
      if err.Some? {
        return items, Err(err.value);
      }
      i := i + 1;
    }
    assert items0[..i] == items0;
    r := Ok(signals);
  }
}
