/**
 * Object construction, property and signal-argument checks and the
 * binding builder (glib/src/object.rs). A GLib type is an opaque integer
 * and the type hierarchy is the parameter `isA`; a parameter flags word is
 * a `Bits.Word`.
 */
module Object {
  import opened Wrappers
  import opened Bits

  type GType = int

  /** `GParamFlags` bits. */
  const READABLE: Bit := 0
  const WRITABLE: Bit := 1
  const CONSTRUCT: Bit := 2
  const CONSTRUCT_ONLY: Bit := 3
  const LAX_VALIDATION: Bit := 4

  datatype ParamSpec = ParamSpec(name: string, valueType: GType, flags: Word)

  /**
   * A `Value`: its declared type and, when it holds an object type, the
   * object it holds (`Some(None)` for a null object, `Some(Some(t))` for an
   * object whose runtime type is `t`).
   */
  datatype Value = Value(gtype: GType, obj: Option<Option<GType>>)

  /** The first property of the list with the given name (`g_object_class_find_property`). */
  function FindProperty(pspecs: seq<ParamSpec>, name: string): (r: Option<ParamSpec>)
    ensures r.Some? ==> r.value in pspecs && r.value.name == name
    ensures r.None? <==> forall p :: p in pspecs ==> p.name != name
  {
    if pspecs == [] then None
    else if pspecs[0].name == name then Some(pspecs[0])
    else FindProperty(pspecs[1..], name)
  }

  /** `property_type`. */
  function PropertyType(pspecs: seq<ParamSpec>, name: string): Option<GType>
  {
    match FindProperty(pspecs, name)
    case Some(p) => Some(p.valueType)
    case None => None
  }

  /** `ObjectClass::has_property` and `Interface::has_property`. */
  predicate HasProperty(pspecs: seq<ParamSpec>, name: string, type_: Option<GType>)
  {
    match (PropertyType(pspecs, name), type_)
    case (None, _) => false
    case (Some(_), None) => true
    case (Some(ptype), Some(t)) => ptype == t
  }

  predicate UniqueNames(pspecs: seq<ParamSpec>)
  {
    forall i, j :: 0 <= i < j < |pspecs| ==> pspecs[i].name != pspecs[j].name
  }

  /**
   * With the unique property names a class has, `has_property(name, None)`
   * is "some property has that name" and `has_property(name, Some(t))` is
   * "the property of that name has type `t`".
   */
  lemma {:induction false} HasPropertyMeaning(pspecs: seq<ParamSpec>, name: string, t: GType)
    requires UniqueNames(pspecs)
    ensures HasProperty(pspecs, name, None) <==> exists p :: p in pspecs && p.name == name
    ensures HasProperty(pspecs, name, Some(t)) <==> exists p :: p in pspecs && p.name == name && p.valueType == t
  {
    var r := FindProperty(pspecs, name);
    if r.Some? {
      forall p | p in pspecs && p.name == name
        ensures p == r.value
      {
        var i :| 0 <= i < |pspecs| && pspecs[i] == p;
        var j :| 0 <= j < |pspecs| && pspecs[j] == r.value;
        assert i == j;
      }
    }
  }

  /**
   * `coerce_object_type`: a value not holding an object gives `Err` of its
   * type; a null object, or an object whose type is a `type_`, is retyped
   * to `type_`; any other object gives `Err` of the object's type.
   */
  function CoerceObjectType(v: Value, type_: GType, isA: (GType, GType) -> bool): (r: Result<Value, GType>)
    ensures v.obj.None? ==> r == Err(v.gtype)
    ensures v.obj == Some(None) ==> r == Ok(v.(gtype := type_))
    ensures v.obj.Some? && v.obj.value.Some? ==>
      if isA(v.obj.value.value, type_) then r == Ok(v.(gtype := type_)) else r == Err(v.obj.value.value)
    ensures r.Ok? ==> r.value.gtype == type_ && r.value.obj == v.obj
  {
    match v.obj
    case Some(Some(t)) =>
      if !isA(t, type_) then Err(t) else Ok(v.(gtype := type_))
    case Some(None) => Ok(v.(gtype := type_))
    case None => Err(v.gtype)
  }

  datatype PropertyError =
    | NotWritable(name: string)
    | WrongType(name: string, expected: GType, got: GType)
    | InvalidValue(name: string)

  /**
   * The value as `validate_property_type` hands it to validation: itself
   * when its type is a `type_`, otherwise as `coerce_object_type` retypes it.
   */
  function Retyped(v: Value, type_: GType, isA: (GType, GType) -> bool): (r: Result<Value, GType>)
    ensures isA(v.gtype, type_) ==> r == Ok(v)
    ensures r.Err? <==> !isA(v.gtype, type_) && CoerceObjectType(v, type_, isA).Err?
  {
    if isA(v.gtype, type_) then Ok(v) else CoerceObjectType(v, type_, isA)
  }

  /** Whether a property may be set here: writable, and not construct-only unless construction allows it. */
  predicate Settable(allowConstructOnly: bool, pspec: ParamSpec)
  {
    WRITABLE in pspec.flags && (allowConstructOnly || CONSTRUCT_ONLY !in pspec.flags)
  }

  /**
   * `validate_property_type`. `validate` is `g_param_value_validate`: the
   * value it returns differs from its input exactly when it changed it.
   */
  function ValidatePropertyType(allowConstructOnly: bool, pspec: ParamSpec, v: Value,
                                isA: (GType, GType) -> bool,
                                validate: (ParamSpec, Value) -> Value): (r: Result<Value, PropertyError>)
    ensures WRITABLE !in pspec.flags ==> r == Err(NotWritable(pspec.name))
    ensures !allowConstructOnly && CONSTRUCT_ONLY in pspec.flags ==> r == Err(NotWritable(pspec.name))
    ensures r.Err? && r.error.NotWritable? <==> !Settable(allowConstructOnly, pspec)
    ensures r.Err? && r.error.WrongType? <==>
      Settable(allowConstructOnly, pspec) && !isA(v.gtype, pspec.valueType) &&
      CoerceObjectType(v, pspec.valueType, isA).Err?
    ensures r.Err? && r.error.WrongType? ==> CoerceObjectType(v, pspec.valueType, isA) == Err(r.error.got)
    ensures var typed := Retyped(v, pspec.valueType, isA);
      r.Err? && r.error.InvalidValue? <==>
        Settable(allowConstructOnly, pspec) && typed.Ok? &&
        validate(pspec, typed.value) != typed.value && LAX_VALIDATION !in pspec.flags
    ensures r.Ok? ==>
      Settable(allowConstructOnly, pspec) && Retyped(v, pspec.valueType, isA).Ok? &&
      r.value == validate(pspec, Retyped(v, pspec.valueType, isA).value)
    ensures r.Ok? && LAX_VALIDATION !in pspec.flags ==> r.value == Retyped(v, pspec.valueType, isA).value
  {
    if !Settable(allowConstructOnly, pspec) then
      Err(NotWritable(pspec.name))
    else
      match Retyped(v, pspec.valueType, isA)
      case Err(got) => Err(WrongType(pspec.name, pspec.valueType, got))
      case Ok(tv) =>
        var validated := validate(pspec, tv);
        var changed := validated != tv;
        if changed && LAX_VALIDATION !in pspec.flags then Err(InvalidValue(pspec.name))
        else Ok(validated)
  }

  datatype SignalArgError =
    | ArgumentCount(nParams: nat, nArgs: nat)
    | ArgumentType(index: nat, expected: GType, got: GType)

  /** The arguments from index `i` on, each coerced to its parameter type when the types differ. */
  function CoerceArgsFrom(paramTypes: seq<GType>, args: seq<Value>, i: nat, isA: (GType, GType) -> bool)
    : (r: Result<seq<Value>, SignalArgError>)
    requires |paramTypes| == |args| && i <= |args|
    ensures r.Ok? ==> |r.value| == |args| - i
    decreases |args| - i
  {
    if i == |args| then Ok([])
    else
      var a :=
        if paramTypes[i] == args[i].gtype then Ok(args[i])
        else CoerceObjectType(args[i], paramTypes[i], isA);
      match a
      case Err(got) => Err(ArgumentType(i, paramTypes[i], got))
      case Ok(v) =>
        match CoerceArgsFrom(paramTypes, args, i + 1, isA)
        case Err(e) => Err(e)
        case Ok(rest) => Ok([v] + rest)
  }

  /** `validate_signal_arguments`, on values: the checked and retyped arguments. */
  function SignalArguments(paramTypes: seq<GType>, args: seq<Value>, isA: (GType, GType) -> bool)
    : (r: Result<seq<Value>, SignalArgError>)
    ensures |paramTypes| != |args| ==> r == Err(ArgumentCount(|paramTypes|, |args|))
  {
    if |paramTypes| != |args| then Err(ArgumentCount(|paramTypes|, |args|))
    else CoerceArgsFrom(paramTypes, args, 0, isA)
  }

  /**
   * Accepted arguments match the signal's parameter types one for one and
   * keep the objects they hold; a rejected argument is the first one whose
   * type neither equals nor coerces to its parameter type.
   */
  lemma {:induction false} CoerceArgsFromMeaning(paramTypes: seq<GType>, args: seq<Value>, i: nat,
                                                 isA: (GType, GType) -> bool)
    requires |paramTypes| == |args| && i <= |args|
    ensures var r := CoerceArgsFrom(paramTypes, args, i, isA);
      (r.Ok? ==> forall k :: i <= k < |args| ==>
         r.value[k - i].gtype == paramTypes[k] && r.value[k - i].obj == args[k].obj) &&
      (r.Ok? <==> forall k :: i <= k < |args| ==>
         paramTypes[k] == args[k].gtype || CoerceObjectType(args[k], paramTypes[k], isA).Ok?) &&
      (r.Err? ==>
         && r.error.ArgumentType? && i <= r.error.index < |args|
         && paramTypes[r.error.index] != args[r.error.index].gtype
         && CoerceObjectType(args[r.error.index], paramTypes[r.error.index], isA).Err?)
    decreases |args| - i
  {
    if i < |args| {
      CoerceArgsFromMeaning(paramTypes, args, i + 1, isA);
    }
  }

  lemma SignalArgumentsMeaning(paramTypes: seq<GType>, args: seq<Value>, isA: (GType, GType) -> bool)
    ensures var r := SignalArguments(paramTypes, args, isA);
      (r.Ok? ==> |r.value| == |args| && forall k :: 0 <= k < |args| ==> r.value[k].gtype == paramTypes[k]) &&
      (r.Ok? <==> |paramTypes| == |args| && forall k :: 0 <= k < |args| ==>
         paramTypes[k] == args[k].gtype || CoerceObjectType(args[k], paramTypes[k], isA).Ok?)
  {
    if |paramTypes| == |args| {
      CoerceArgsFromMeaning(paramTypes, args, 0, isA);
    }
  }

  /** The arguments already checked, in front of the outcome for the rest. */
  function Prepend(done: seq<Value>, rest: Result<seq<Value>, SignalArgError>): Result<seq<Value>, SignalArgError>
  {
    match rest
    case Err(e) => Err(e)
    case Ok(vs) => Ok(done + vs)
  }

  lemma PrependStep(done: seq<Value>, v: Value, rest: Result<seq<Value>, SignalArgError>)
    ensures Prepend(done, match rest case Err(e) => Err(e) case Ok(vs) => Ok([v] + vs)) == Prepend(done + [v], rest)
  {
    if rest.Ok? {
      assert done + ([v] + rest.value) == done + [v] + rest.value;
    }
  }

  /**
   * `validate_signal_arguments`: checks the count, then walks the argument
   * slice in place, retyping every argument whose type differs from its
   * parameter type. On success the slice holds `SignalArguments`.
   */
  method ValidateSignalArguments(paramTypes: seq<GType>, args: array<Value>, isA: (GType, GType) -> bool)
    returns (r: Result<(), SignalArgError>)
    modifies args
    ensures var spec := SignalArguments(paramTypes, old(args[..]), isA);
      (r.Ok? <==> spec.Ok?) && (r.Ok? ==> args[..] == spec.value) && (r.Err? ==> r.error == spec.error)
  {
    if |paramTypes| != args.Length {
      return Err(ArgumentCount(|paramTypes|, args.Length));
    }
    ghost var orig := args[..];
    var whole := CoerceArgsFrom(paramTypes, orig, 0, isA);
    if whole.Ok? {
      assert [] + whole.value == whole.value;
    }
    assert SignalArguments(paramTypes, orig, isA) == Prepend([], whole);
    var i := 0;
    while i < args.Length
      invariant 0 <= i <= args.Length
      invariant args[i..] == orig[i..]
      invariant SignalArguments(paramTypes, orig, isA) == Prepend(args[..i], CoerceArgsFrom(paramTypes, orig, i, isA))
    {
      assert args[i] == orig[i];
      if paramTypes[i] != args[i].gtype {
        var c := CoerceObjectType(args[i], paramTypes[i], isA);
        if c.Err? {
          return Err(ArgumentType(i, paramTypes[i], c.error));
        }
        args[i] := c.value;
      }
      PrependStep(args[..i], args[i], CoerceArgsFrom(paramTypes, orig, i + 1, isA));
      assert args[..i + 1] == args[..i] + [args[i]];
      i := i + 1;
    }
    assert args[..i] == args[..];
    return Ok(());
  }

  /** What `new_internal` finds out about the type before creating the object. */
  datatype TypeFacts = TypeFacts(isObject: bool, instantiatable: bool, isAbstract: bool)

  datatype NewError =
    | NotAnObjectType
    | NotInstantiatable
    | AbstractType
    | NoSuchProperty(name: string)
    | ConstructTwice(name: string)
    | Property(e: PropertyError)

  predicate IsConstruct(p: ParamSpec)
  {
    CONSTRUCT in p.flags || CONSTRUCT_ONLY in p.flags
  }

  /**
   * The property loop of `new_internal` from index `i` on, given the names
   * already collected: each property is looked up, refused if it is a
   * construct property already collected, validated and collected.
   */
  function CollectFrom(pspecs: seq<ParamSpec>, props: seq<(string, Value)>, i: nat, names: seq<string>,
                       isA: (GType, GType) -> bool, validate: (ParamSpec, Value) -> Value)
    : (r: Result<(seq<string>, seq<Value>), NewError>)
    requires i <= |props|
    ensures r.Ok? ==> |r.value.0| == |props| - i && |r.value.1| == |props| - i
    decreases |props| - i
  {
    if i == |props| then Ok(([], []))
    else
      var (name, value) := props[i];
      match FindProperty(pspecs, name)
      case None => Err(NoSuchProperty(name))
      case Some(pspec) =>
        if IsConstruct(pspec) && pspec.name in names then Err(ConstructTwice(name))
        else
          match ValidatePropertyType(true, pspec, value, isA, validate)
          case Err(e) => Err(Property(e))
          case Ok(v) =>
            match CollectFrom(pspecs, props, i + 1, names + [pspec.name], isA, validate)
            case Err(e) => Err(e)
            case Ok((ns, vs)) => Ok(([pspec.name] + ns, [v] + vs))
  }

  /** The type checks of `new_internal`, then its property loop. */
  function NewObject(facts: TypeFacts, pspecs: seq<ParamSpec>, props: seq<(string, Value)>,
                     isA: (GType, GType) -> bool, validate: (ParamSpec, Value) -> Value)
    : (r: Result<(seq<string>, seq<Value>), NewError>)
    ensures !facts.isObject ==> r == Err(NotAnObjectType)
    ensures facts.isObject && !facts.instantiatable ==> r == Err(NotInstantiatable)
    ensures facts.isObject && facts.instantiatable && facts.isAbstract ==> r == Err(AbstractType)
  {
    if !facts.isObject then Err(NotAnObjectType)
    else if !facts.instantiatable then Err(NotInstantiatable)
    else if facts.isAbstract then Err(AbstractType)
    else CollectFrom(pspecs, props, 0, [], isA, validate)
  }

  /** The names and values already pushed, in front of the outcome for the rest. */
  function PrependPair(names: seq<string>, values: seq<Value>, rest: Result<(seq<string>, seq<Value>), NewError>)
    : Result<(seq<string>, seq<Value>), NewError>
  {
    match rest
    case Err(e) => Err(e)
    case Ok((ns, vs)) => Ok((names + ns, values + vs))
  }

  /**
   * `new_internal` up to the creation of the instance: the type checks, then
   * the loop that pushes each property's canonical name and validated value
   * onto `property_names` and `property_values`.
   */
  method NewInternal(facts: TypeFacts, pspecs: seq<ParamSpec>, props: seq<(string, Value)>,
                     isA: (GType, GType) -> bool, validate: (ParamSpec, Value) -> Value)
    returns (r: Result<(seq<string>, seq<Value>), NewError>)
    ensures r == NewObject(facts, pspecs, props, isA, validate)
  {
    if !facts.isObject {
      return Err(NotAnObjectType);
    }
    if !facts.instantiatable {
      return Err(NotInstantiatable);
    }
    if facts.isAbstract {
      return Err(AbstractType);
    }
    var names: seq<string> := [];
    var values: seq<Value> := [];
    PrependNothing(CollectFrom(pspecs, props, 0, [], isA, validate));
    var i := 0;
    while i < |props|
      invariant 0 <= i <= |props|
      invariant NewObject(facts, pspecs, props, isA, validate) ==
        PrependPair(names, values, CollectFrom(pspecs, props, i, names, isA, validate))
    {
      var (name, value) := props[i];
      CollectErr(pspecs, props, i, names, values, isA, validate);
      var found := FindProperty(pspecs, name);
      if found.None? {
        return Err(NoSuchProperty(name));
      }
      var pspec := found.value;
      if IsConstruct(pspec) && pspec.name in names {
        return Err(ConstructTwice(name));
      }
      var v := ValidatePropertyType(true, pspec, value, isA, validate);
      if v.Err? {
        return Err(Property(v.error));
      }
      CollectStep(pspecs, props, i, names, values, pspec, v.value, isA, validate);
      names := names + [pspec.name];
      values := values + [v.value];
      i := i + 1;
    }
    assert names + [] == names && values + [] == values;
    return Ok((names, values));
  }

  /** The exits of `new_internal`'s loop at property `i`: an unknown name, a construct property twice, a bad value. */
  lemma CollectErr(pspecs: seq<ParamSpec>, props: seq<(string, Value)>, i: nat, names: seq<string>, values: seq<Value>,
                   isA: (GType, GType) -> bool, validate: (ParamSpec, Value) -> Value)
    requires i < |props|
    ensures var found := FindProperty(pspecs, props[i].0);
      var outcome := PrependPair(names, values, CollectFrom(pspecs, props, i, names, isA, validate));
      && (found.None? ==> outcome == Err(NoSuchProperty(props[i].0)))
      && (found.Some? && IsConstruct(found.value) && found.value.name in names ==> outcome == Err(ConstructTwice(props[i].0)))
      && (found.Some? && !(IsConstruct(found.value) && found.value.name in names) ==>
           var v := ValidatePropertyType(true, found.value, props[i].1, isA, validate);
           v.Err? ==> outcome == Err(Property(v.error)))
  {
  }

  lemma PrependNothing(rest: Result<(seq<string>, seq<Value>), NewError>)
    ensures PrependPair([], [], rest) == rest
  {
    if rest.Ok? {
      assert [] + rest.value.0 == rest.value.0 && [] + rest.value.1 == rest.value.1;
    }
  }

  /** One property of `new_internal`'s loop: its name and value move from the outcome to the pushed lists. */
  lemma CollectStep(pspecs: seq<ParamSpec>, props: seq<(string, Value)>, i: nat, names: seq<string>, values: seq<Value>,
                    pspec: ParamSpec, v: Value, isA: (GType, GType) -> bool, validate: (ParamSpec, Value) -> Value)
    requires i < |props| && FindProperty(pspecs, props[i].0) == Some(pspec)
    requires !(IsConstruct(pspec) && pspec.name in names)
    requires ValidatePropertyType(true, pspec, props[i].1, isA, validate) == Ok(v)
    ensures PrependPair(names, values, CollectFrom(pspecs, props, i, names, isA, validate)) ==
      PrependPair(names + [pspec.name], values + [v], CollectFrom(pspecs, props, i + 1, names + [pspec.name], isA, validate))
  {
    var rest := CollectFrom(pspecs, props, i + 1, names + [pspec.name], isA, validate);
    if rest.Ok? {
      assert names + ([pspec.name] + rest.value.0) == names + [pspec.name] + rest.value.0;
      assert values + ([v] + rest.value.1) == values + [v] + rest.value.1;
    }
  }

  /** A name that may be collected more than once: a property that is not a construct property. */
  predicate Repeatable(pspecs: seq<ParamSpec>, name: string)
  {
    FindProperty(pspecs, name).Some? && !IsConstruct(FindProperty(pspecs, name).value)
  }

  /** No construct property is named twice in a list of collected names. */
  predicate ConstructOnce(pspecs: seq<ParamSpec>, names: seq<string>)
  {
    forall j, k :: 0 <= j < k < |names| && names[j] == names[k] ==> Repeatable(pspecs, names[j])
  }

  lemma ConstructOnceAppend(pspecs: seq<ParamSpec>, names: seq<string>, n: string)
    requires ConstructOnce(pspecs, names)
    requires n in names ==> Repeatable(pspecs, n)
    ensures ConstructOnce(pspecs, names + [n])
  {
    var names' := names + [n];
    forall j, k | 0 <= j < k < |names'| && names'[j] == names'[k]
      ensures Repeatable(pspecs, names'[j])
    {
      if k == |names| {
        assert names'[j] == names[j];
      } else {
        assert names'[j] == names[j] && names'[k] == names[k];
      }
    }
  }

  /**
   * Starting from names in which no construct property repeats, the names
   * the loop collects keep it that way: `new_internal` never passes a
   * construct property twice to `g_object_new_with_properties`.
   */
  lemma {:induction false} CollectFromConstructOnce(pspecs: seq<ParamSpec>, props: seq<(string, Value)>, i: nat,
                                                    names: seq<string>, isA: (GType, GType) -> bool,
                                                    validate: (ParamSpec, Value) -> Value)
    requires i <= |props|
    requires ConstructOnce(pspecs, names)
    ensures var r := CollectFrom(pspecs, props, i, names, isA, validate);
      r.Ok? ==> ConstructOnce(pspecs, names + r.value.0)
    decreases |props| - i
  {
    var r := CollectFrom(pspecs, props, i, names, isA, validate);
    if i < |props| && r.Ok? {
      var name := props[i].0;
      var pspec := FindProperty(pspecs, name).value;
      assert pspec.name == name;
      ConstructOnceAppend(pspecs, names, pspec.name);
      var names' := names + [pspec.name];
      CollectFromConstructOnce(pspecs, props, i + 1, names', isA, validate);
      var rest := CollectFrom(pspecs, props, i + 1, names', isA, validate).value.0;
      assert r.value.0 == [pspec.name] + rest;
      assert names + r.value.0 == names' + rest;
    }
  }

  /** Each collected name is the name of the property found for the given name, i.e. the given name itself. */
  lemma {:induction false} CollectFromNames(pspecs: seq<ParamSpec>, props: seq<(string, Value)>, i: nat,
                                            names: seq<string>, isA: (GType, GType) -> bool,
                                            validate: (ParamSpec, Value) -> Value)
    requires i <= |props|
    ensures var r := CollectFrom(pspecs, props, i, names, isA, validate);
      r.Ok? ==> forall k :: 0 <= k < |r.value.0| ==>
        r.value.0[k] == props[i + k].0 && FindProperty(pspecs, props[i + k].0).Some?
    decreases |props| - i
  {
    var r := CollectFrom(pspecs, props, i, names, isA, validate);
    if i < |props| && r.Ok? {
      var pspec := FindProperty(pspecs, props[i].0).value;
      assert pspec.name == props[i].0;
      CollectFromNames(pspecs, props, i + 1, names + [pspec.name], isA, validate);
      var rest := CollectFrom(pspecs, props, i + 1, names + [pspec.name], isA, validate).value.0;
      assert r.value.0 == [pspec.name] + rest;
      forall k | 0 <= k < |r.value.0|
        ensures r.value.0[k] == props[i + k].0 && FindProperty(pspecs, props[i + k].0).Some?
      {
        if k > 0 {
          assert r.value.0[k] == rest[k - 1];
          assert i + 1 + (k - 1) == i + k;
        }
      }
    }
  }

  /** `BindingFlags` bits; `DEFAULT` is the empty word. */
  const BIDIRECTIONAL: Bit := 0
  const SYNC_CREATE: Bit := 1
  const INVERT_BOOLEAN: Bit := 2

  /**
   * `BindingBuilder`: the flags and whether each transform closure is set
   * (the closures themselves are opaque here).
   */
  class BindingBuilder {
    const sourceProperty: string
    const targetProperty: string
    var flags: Word
    var hasTransformTo: bool
    var hasTransformFrom: bool

    constructor (sourceProperty: string, targetProperty: string)
      ensures this.sourceProperty == sourceProperty && this.targetProperty == targetProperty
      ensures flags == {} && !hasTransformTo && !hasTransformFrom
    {
      this.sourceProperty := sourceProperty;
      this.targetProperty := targetProperty;
      flags := {};
      hasTransformTo := false;
      hasTransformFrom := false;
    }

    /** `flags`: replaces every bit. */
    method Flags(f: Word)
      modifies this
      ensures flags == f && hasTransformTo == old(hasTransformTo) && hasTransformFrom == old(hasTransformFrom)
    {
      flags := f;
    }

    method Bidirectional()
      modifies this
      ensures flags == old(flags) + {BIDIRECTIONAL}
      ensures hasTransformTo == old(hasTransformTo) && hasTransformFrom == old(hasTransformFrom)
    {
      flags := flags + {BIDIRECTIONAL};
    }

    method SyncCreate()
      modifies this
      ensures flags == old(flags) + {SYNC_CREATE}
      ensures hasTransformTo == old(hasTransformTo) && hasTransformFrom == old(hasTransformFrom)
    {
      flags := flags + {SYNC_CREATE};
    }

    method InvertBoolean()
      modifies this
      ensures flags == old(flags) + {INVERT_BOOLEAN}
      ensures hasTransformTo == old(hasTransformTo) && hasTransformFrom == old(hasTransformFrom)
    {
      flags := flags + {INVERT_BOOLEAN};
    }

    /** `transform_to` / `transform_to_with_values`. */
    method TransformTo()
      modifies this
      ensures hasTransformTo && flags == old(flags) && hasTransformFrom == old(hasTransformFrom)
    {
      hasTransformTo := true;
    }

    /** `transform_from` / `transform_from_with_values`. */
    method TransformFrom()
      modifies this
      ensures hasTransformFrom && flags == old(flags) && hasTransformTo == old(hasTransformTo)
    {
      hasTransformFrom := true;
    }
  }
}
