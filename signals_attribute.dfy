/**
 * glib-macros/src/signals_attribute.rs: the `#[signals]` attribute on the
 * plain `impl` block of an object's inner type. Methods tagged
 * `#[signal]` (with a body) and bodiless declarations tagged `#[signal]`
 * become signals; the attribute's `wrapper_type` receives generated
 * `connect_*`/`emit_*` methods. Types, paths and expressions are opaque
 * strings; attributes and method arguments are those of `SignalsMacro`.
 */
module SignalsAttribute {
  import opened Wrappers
  import opened Text
  import SignalsMacro

  type RawArg = SignalsMacro.RawArg
  type Attribute = SignalsMacro.Attribute
  type FnArg = SignalsMacro.FnArg

  /** `Args`: the wrapper type, and the extension trait (absent, derived, or named). */
  datatype Args = Args(wrapperTy: string, extTrait: Option<Option<string>>)

  datatype ArgsSoFar = ArgsSoFar(wrapperTy: Option<string>, extTrait: Option<Option<string>>)

  /**
   * One argument of `#[signals(...)]`: `wrapper_type = Path`, `ext_trait`
   * or `ext_trait = Ident`; another identifier is skipped, but a value
   * after it stops the parse.
   */
  function ArgStep(st: ArgsSoFar, raw: RawArg): (r: Result<ArgsSoFar, string>)
    ensures raw.ident == "ext_trait" ==> r == Ok(st.(extTrait := Some(raw.value)))
    ensures raw.ident == "wrapper_type" && raw.value.Some? ==> r == Ok(st.(wrapperTy := raw.value))
    ensures raw.ident !in {"wrapper_type", "ext_trait"} && raw.value.None? ==> r == Ok(st)
  {
    if raw.ident == "wrapper_type" then
      (if raw.value.Some? then Ok(st.(wrapperTy := raw.value)) else Err("expected `=`"))
    else if raw.ident == "ext_trait" then Ok(st.(extTrait := Some(raw.value)))
    else if raw.value.Some? then Err("expected identifier")
    else Ok(st)
  }

  function ArgSteps(st: ArgsSoFar, raws: seq<RawArg>): Result<ArgsSoFar, string>
    decreases |raws|
  {
    if |raws| == 0 then Ok(st)
    else match ArgStep(st, raws[0])
      case Err(e) => Err(e)
      case Ok(st') => ArgSteps(st', raws[1..])
  }

  const MISSING_WRAPPER := "missing #[signals(wrapper_type = ...)]"

  /** `Args::parse`: the arguments in order, then the required wrapper type. */
  function ParseArgs(raws: seq<RawArg>): (r: Result<Args, string>)
    ensures ArgSteps(ArgsSoFar(None, None), raws).Ok? ==>
      (r.Ok? <==> ArgSteps(ArgsSoFar(None, None), raws).value.wrapperTy.Some?)
  {
    match ArgSteps(ArgsSoFar(None, None), raws)
    case Err(e) => Err(e)
    case Ok(st) =>
      if st.wrapperTy.None? then Err(MISSING_WRAPPER) else Ok(Args(st.wrapperTy.value, st.extTrait))
  }

  /** No `ext_trait` argument follows position `i`. */
  predicate LastExtTrait(raws: seq<RawArg>, i: int) {
    forall j :: 0 <= j < |raws| && i < j ==> raws[j].ident != "ext_trait"
  }

  /**
   * `ext_trait` is absent when never written, and otherwise the last
   * `ext_trait` decides: bare gives `Some(None)`, `= Ident` gives
   * `Some(Some(Ident))`.
   */
  lemma {:induction false} ExtTraitIsLast(st: ArgsSoFar, raws: seq<RawArg>)
    requires ArgSteps(st, raws).Ok?
    ensures (forall i :: 0 <= i < |raws| ==> raws[i].ident != "ext_trait") ==>
      ArgSteps(st, raws).value.extTrait == st.extTrait
    ensures forall i :: 0 <= i < |raws| && raws[i].ident == "ext_trait" && LastExtTrait(raws, i) ==>
      ArgSteps(st, raws).value.extTrait == Some(raws[i].value)
    decreases |raws|
  {
    if |raws| > 0 {
      var st' := ArgStep(st, raws[0]).value;
      ExtTraitIsLast(st', raws[1..]);
      assert forall i :: 1 <= i < |raws| ==> raws[1..][i - 1] == raws[i];
    }
  }

  /** `SignalAttr`: one parameter of `#[signal(...)]`. */
  datatype SignalAttr =
    | RunFirst | RunLast | RunCleanup | NoRecurse | Detailed | Action | NoHooks
    | Accum(expr: string)

  /** The bare options, by name. */
  function FlagNamed(name: string): Option<SignalAttr> {
    if name == "run_first" then Some(RunFirst)
    else if name == "run_last" then Some(RunLast)
    else if name == "run_cleanup" then Some(RunCleanup)
    else if name == "no_recurse" then Some(NoRecurse)
    else if name == "detailed" then Some(Detailed)
    else if name == "action" then Some(Action)
    else if name == "no_hooks" then Some(NoHooks)
    else None
  }

  /** `SignalAttr::parse`: only `accum` takes a value; the seven flags are bare; anything else is unsupported. */
  function ParseSignalAttr(raw: RawArg): (r: Result<SignalAttr, string>)
    ensures r.Ok? <==> (raw.ident == "accum" && raw.value.Some?) || (FlagNamed(raw.ident).Some? && raw.value.None?)
    ensures r.Ok? && r.value.Accum? ==> raw.value == Some(r.value.expr)
    ensures r.Err? ==> r.error == "Unsupported option " + raw.ident
  {
    if raw.value.Some? then
      (if raw.ident == "accum" then Ok(Accum(raw.value.value)) else Err("Unsupported option " + raw.ident))
    else match FlagNamed(raw.ident)
      case Some(f) => Ok(f)
      case None => Err("Unsupported option " + raw.ident)
  }

  function ParseSignalAttrs(raws: seq<RawArg>): (r: Result<seq<SignalAttr>, string>)
    ensures r.Ok? ==> |r.value| == |raws| && forall i :: 0 <= i < |raws| ==> ParseSignalAttr(raws[i]) == Ok(r.value[i])
    ensures r.Ok? <==> forall i :: 0 <= i < |raws| ==> ParseSignalAttr(raws[i]).Ok?
  {
    if |raws| == 0 then Ok([])
    else match ParseSignalAttr(raws[0])
      case Err(e) => Err(e)
      case Ok(a) =>
        match ParseSignalAttrs(raws[1..])
        case Err(e) => Err(e)
        case Ok(rest) => Ok([a] + rest)
  }

  /** The first attribute whose path is `signal`. */
  function FirstSignalAttr(attrs: seq<Attribute>): (r: Option<nat>)
    ensures r.Some? ==> r.value < |attrs| && SignalsMacro.IsSignalAttr(attrs[r.value])
    ensures r.Some? ==> forall j :: 0 <= j < r.value ==> !SignalsMacro.IsSignalAttr(attrs[j])
    ensures r.None? ==> forall j :: 0 <= j < |attrs| ==> !SignalsMacro.IsSignalAttr(attrs[j])
  {
    if |attrs| == 0 then None
    else if SignalsMacro.IsSignalAttr(attrs[0]) then Some(0)
    else match FirstSignalAttr(attrs[1..])
      case None => None
      case Some(i) => Some(i + 1)
  }

  const EXPECTED_SIGNAL_FORM := "expected #[signal] or #[signal(<arg1>, ...)]"

  /**
   * `SignalAttr::extract_items`: only the first `#[signal]` counts; none
   * gives `None`, `#[signal]` no options, `#[signal(...)]` its non-empty
   * option list, `#[signal = v]` an error.
   */
  function ExtractItems(attrs: seq<Attribute>): (r: Result<Option<seq<SignalAttr>>, string>)
    ensures r == Ok(None) <==> forall j :: 0 <= j < |attrs| ==> !SignalsMacro.IsSignalAttr(attrs[j])
    ensures FirstSignalAttr(attrs).Some? && attrs[FirstSignalAttr(attrs).value].meta.PathMeta? ==> r == Ok(Some([]))
    ensures FirstSignalAttr(attrs).Some? && attrs[FirstSignalAttr(attrs).value].meta.NameValueMeta? ==>
      r == Err(EXPECTED_SIGNAL_FORM)
  {
    match FirstSignalAttr(attrs)
    case None => Ok(None)
    case Some(i) =>
      match attrs[i].meta
      case PathMeta => Ok(Some([]))
      case ListMeta(raws) =>
        if |raws| == 0 then Err("unexpected end of input")
        else (match ParseSignalAttrs(raws) case Err(e) => Err(e) case Ok(opts) => Ok(Some(opts)))
      case NameValueMeta(_) => Err(EXPECTED_SIGNAL_FORM)
  }

  /** A method's declared return: none, `()`, or a type. */
  datatype ReturnType = DefaultReturn | UnitTuple | ReturnsType(ty: string)

  /** The parts of a method signature the attribute reads. */
  datatype Signature = Signature(ident: string, inputs: seq<FnArg>, output: ReturnType)

  /** `SignalDesc`: what the generated code needs to know about one signal. */
  datatype SignalDesc = SignalDesc(
    name: string,
    rsName: string,
    paramTypes: seq<string>,
    returnType: Option<string>,
    flags: seq<SignalAttr>,
    classHandler: Option<string>)

  const EXPECT_SELF_REF := "signal method must take &self as its first parameter"

  /** The parameter types after the receiver; a second receiver panics ("unexpected receiver"). */
  function TypesAfterSelf(inputs: seq<FnArg>): (r: Option<seq<string>>)
    ensures r.Some? <==> forall k :: 0 <= k < |inputs| ==> inputs[k].Typed?
    ensures r.Some? ==> |r.value| == |inputs| && forall k :: 0 <= k < |inputs| ==> r.value[k] == inputs[k].ty
  {
    if |inputs| == 0 then Some([])
    else if inputs[0].Receiver? then None
    else match TypesAfterSelf(inputs[1..])
      case None => None
      case Some(rest) => Some([inputs[0].ty] + rest)
  }

  /** The signal's return type: none for a missing return type and for `()`. */
  function SignalReturn(output: ReturnType): (r: Option<string>)
    ensures r.None? <==> output == DefaultReturn || output == UnitTuple
  {
    match output
    case DefaultReturn => None
    case UnitTuple => None
    case ReturnsType(ty) => Some(ty)
  }

  /**
   * `SignalDesc::new`: the first input must be `&self`; the signal name
   * is the method name with `-` for `_`; a class handler is the method
   * itself, and only for a method with a body (`complete`). `None` is the
   * panic on a second receiver.
   */
  function NewSignalDesc(flags: seq<SignalAttr>, sig: Signature, complete: bool): (r: Option<Result<SignalDesc, string>>)
    ensures !SignalsMacro.TakesRefSelf(sig.inputs) ==> r == Some(Err(EXPECT_SELF_REF))
    ensures r.Some? && r.value.Ok? ==>
      && SignalsMacro.TakesRefSelf(sig.inputs)
      && r.value.value.rsName == sig.ident
      && r.value.value.name == ReplaceChar(sig.ident, '_', '-')
      && |r.value.value.paramTypes| == |sig.inputs| - 1
      && (forall k :: 1 <= k < |sig.inputs| ==> sig.inputs[k].Typed? && r.value.value.paramTypes[k - 1] == sig.inputs[k].ty)
      && r.value.value.returnType == SignalReturn(sig.output)
      && r.value.value.flags == flags
      && (r.value.value.classHandler.Some? <==> complete)
    ensures r.None? <==>
      SignalsMacro.TakesRefSelf(sig.inputs) && exists k :: 1 <= k < |sig.inputs| && !sig.inputs[k].Typed?
  {
    if !SignalsMacro.TakesRefSelf(sig.inputs) then Some(Err(EXPECT_SELF_REF))
    else match TypesAfterSelf(sig.inputs[1..])
      case None => None
      case Some(params) =>
        Some(Ok(SignalDesc(
          ReplaceChar(sig.ident, '_', '-'), sig.ident, params, SignalReturn(sig.output), flags,
          if complete then Some(sig.ident) else None)))
  }

  /** An item of the `impl` block; a `Verbatim` item may parse as a bodiless method declaration. */
  datatype ImplItem =
    | MethodItem(attrs: seq<Attribute>, sig: Signature)
    | VerbatimItem(declaration: Option<(seq<Attribute>, Signature)>)
    | OtherItem(text: string)

  /** What one item contributes: the items kept in the output impl, and the signal, if any. */
  datatype Contribution = Contribution(kept: seq<ImplItem>, signal: Option<SignalDesc>)

  /**
   * The body of the `impl_signals` loop for one item; `None` is a panic.
   * A signal method is kept without its `#[signal]` attributes; a signal
   * declaration is dropped; everything else is kept as it is.
   */
  function ItemContribution(item: ImplItem): (r: Option<Result<Contribution, string>>)
    ensures r.Some? && r.value.Ok? && item.VerbatimItem? && r.value.value.signal.Some? ==>
      r.value.value.kept == [] && r.value.value.signal.value.classHandler.None?
    ensures r.Some? && r.value.Ok? && item.MethodItem? && r.value.value.signal.Some? ==>
      r.value.value.signal.value.classHandler.Some?
    ensures r.Some? && r.value.Ok? && item.MethodItem? && r.value.value.signal.Some? ==>
      r.value.value.kept == [MethodItem(SignalsMacro.NonSignalAttrs(item.attrs), item.sig)]
    ensures r.Some? && r.value.Ok? && r.value.value.signal.None? ==> r.value.value.kept == [item]
  {
    match item
    case OtherItem(_) => Some(Ok(Contribution([item], None)))
    case MethodItem(attrs, sig) =>
      (match ExtractItems(attrs)
      case Err(e) => Some(Err(e))
      case Ok(None) => Some(Ok(Contribution([item], None)))
      case Ok(Some(flags)) =>
        (match NewSignalDesc(flags, sig, true)
         case None => None
         case Some(Err(e)) => Some(Err(e))
         case Some(Ok(desc)) => Some(Ok(Contribution([MethodItem(SignalsMacro.NonSignalAttrs(attrs), sig)], Some(desc))))))
    case VerbatimItem(declaration) =>
      if declaration.None? then Some(Ok(Contribution([item], None)))
      else
        match ExtractItems(declaration.value.0)
        case Err(e) => Some(Err(e))
        case Ok(None) => Some(Ok(Contribution([item], None)))
        case Ok(Some(flags)) =>
          match NewSignalDesc(flags, declaration.value.1, false)
          case None => None
          case Some(Err(e)) => Some(Err(e))
          case Some(Ok(desc)) => Some(Ok(Contribution([], Some(desc))))
  }

  /** The output items and signals of a sequence of items, in order; the first error or panic stops. */
  function Contributions(items: seq<ImplItem>): Option<Result<Contribution2, string>> {
    if |items| == 0 then Some(Ok(Contribution2([], [])))
    else match Contributions(items[..|items| - 1])
      case None => None
      case Some(Err(e)) => Some(Err(e))
      case Some(Ok(acc)) =>
        match ItemContribution(items[|items| - 1])
        case None => None
        case Some(Err(e)) => Some(Err(e))
        case Some(Ok(c)) =>
          Some(Ok(Contribution2(acc.kept + c.kept, acc.signals + (if c.signal.Some? then [c.signal.value] else []))))
  }

  datatype Contribution2 = Contribution2(kept: seq<ImplItem>, signals: seq<SignalDesc>)

  const WRONG_PLACE_MSG := "This macro should be used on a plain `impl` block of the inner object type"

  lemma {:induction false} ContributionsStop(items: seq<ImplItem>, more: seq<ImplItem>)
    requires Contributions(items).None? || Contributions(items).value.Err?
    ensures Contributions(items + more) == Contributions(items)
    decreases |more|
  {
    if |more| == 0 {
      assert items + more == items;
    } else {
      ContributionsStop(items, more[..|more| - 1]);
      assert (items + more)[..|items + more| - 1] == items + more[..|more| - 1];
    }
  }

  lemma ContributionsStep(items: seq<ImplItem>, i: nat, acc: Contribution2, one: Contribution)
    requires i < |items|
    requires Contributions(items[..i]) == Some(Ok(acc))
    requires ItemContribution(items[i]) == Some(Ok(one))
    ensures Contributions(items[..i + 1]) ==
      Some(Ok(Contribution2(acc.kept + one.kept, acc.signals + (if one.signal.Some? then [one.signal.value] else []))))
  {
    assert items[..i + 1][..i] == items[..i];
  }

  lemma ContributionsStepStops(items: seq<ImplItem>, i: nat)
    requires i < |items|
    requires Contributions(items[..i]).Some? && Contributions(items[..i]).value.Ok?
    requires ItemContribution(items[i]).None? || ItemContribution(items[i]).value.Err?
    ensures Contributions(items[..i + 1]) ==
      if ItemContribution(items[i]).None? then None else Some(Err(ItemContribution(items[i]).value.error))
  {
    assert items[..i + 1][..i] == items[..i];
  }

  /**
   * `impl_signals`: rejects a trait impl, then goes through the items,
   * pushing the kept ones into the output impl and the descriptions into
   * the signal list. `panicked` is the panic of a second receiver.
   */
  method ImplSignals(isTraitImpl: bool, items: seq<ImplItem>)
    returns (panicked: bool, r: Result<(seq<ImplItem>, seq<SignalDesc>), string>)
    ensures isTraitImpl ==> !panicked && r == Err(WRONG_PLACE_MSG)
    ensures !isTraitImpl ==> (panicked <==> Contributions(items).None?)
    ensures !isTraitImpl && !panicked ==>
      match Contributions(items).value
      case Err(e) => r == Err(e)
      case Ok(c) => r == Ok((c.kept, c.signals))
  {
    if isTraitImpl {
      return false, Err(WRONG_PLACE_MSG);
    }
    var outItems: seq<ImplItem> := [];
    var outSignals: seq<SignalDesc> := [];
    var i := 0;
    while i < |items|
      invariant 0 <= i <= |items|
      invariant Contributions(items[..i]) == Some(Ok(Contribution2(outItems, outSignals)))
    {
      var c := ItemContribution(items[i]);
      if c.None? || c.value.Err? {
        ContributionsStepStops(items, i);
        ContributionsStop(items[..i + 1], items[i + 1..]);
        assert items[..i + 1] + items[i + 1..] == items;
        if c.None? {
          return true, Err("unexpected receiver");
        }
        return false, Err(c.value.error);
      }
      var one := c.value.value;
      ContributionsStep(items, i, Contribution2(outItems, outSignals), one);
      outItems := outItems + one.kept;
      outSignals := outSignals + (if one.signal.Some? then [one.signal.value] else []);
      i := i + 1;
    }
    assert items[..i] == items;
    return false, Ok((outItems, outSignals));
  }

  /** The `connect_*` and `emit_*` methods generated on the wrapper type for each signal. */
  function WrapperMethodNames(signals: seq<SignalDesc>): (names: seq<string>)
    ensures |names| == 2 * |signals|
    ensures forall k :: 0 <= k < |signals| ==>
      names[2 * k] == "connect_" + signals[k].rsName && names[2 * k + 1] == "emit_" + signals[k].rsName
  {
    if |signals| == 0 then []
    else ["connect_" + signals[0].rsName, "emit_" + signals[0].rsName] + WrapperMethodNames(signals[1..])
  }

  /** The value `emit_*` returns: the signal's return type, or `()`. */
  function EmitReturnType(s: SignalDesc): (ty: string)
    ensures s.returnType.Some? ==> ty == s.returnType.value
    ensures s.returnType.None? ==> ty == "()"
  {
    if s.returnType.Some? then s.returnType.value else "()"
  }

  /** A `connect_`/`emit_` name determines both its prefix and the Rust name. */
  lemma PrefixedDistinct(p: string, x: string, q: string, y: string)
    requires p in {"connect_", "emit_"} && q in {"connect_", "emit_"}
    requires p + x == q + y
    ensures p == q && x == y
  {
    assert (p + x)[0] == p[0] && (q + y)[0] == q[0];
    assert (p + x)[|p|..] == x;
    assert (q + y)[|q|..] == y;
  }

  /** Signals with distinct Rust names give wrapper methods with distinct names. */
  lemma {:induction false} WrapperNamesDistinct(signals: seq<SignalDesc>)
    requires forall i, j :: 0 <= i < j < |signals| ==> signals[i].rsName != signals[j].rsName
    ensures forall a, b :: 0 <= a < b < 2 * |signals| ==> WrapperMethodNames(signals)[a] != WrapperMethodNames(signals)[b]
  {
    if |signals| > 0 {
      var rest := signals[1..];
      assert forall i :: 0 <= i < |rest| ==> rest[i] == signals[i + 1];
      WrapperNamesDistinct(rest);
      var names, tail := WrapperMethodNames(signals), WrapperMethodNames(rest);
      var c0, e0 := "connect_" + signals[0].rsName, "emit_" + signals[0].rsName;
      assert names == [c0, e0] + tail;
      forall k | 0 <= k < |tail|
        ensures tail[k] != c0 && tail[k] != e0
      {
        var m := k / 2;
        var pk := if k % 2 == 0 then "connect_" else "emit_";
        assert tail[k] == pk + rest[m].rsName;
        if tail[k] == c0 {
          PrefixedDistinct(pk, rest[m].rsName, "connect_", signals[0].rsName);
        }
        if tail[k] == e0 {
          PrefixedDistinct(pk, rest[m].rsName, "emit_", signals[0].rsName);
        }
      }
    }
  }
}
