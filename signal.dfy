/**
 * Signal definitions of subclasses (glib/src/subclass/signal.rs): the
 * `SignalType` static-scope bit, the `SignalBuilder` flags, building and
 * registering a `Signal`, and the typed accumulator.
 */
module Signal {
  import opened Wrappers
  import opened Bits
  import Text
  import Utils

  /** A `GType` value: fundamental types are multiples of 4 and others are aligned pointers, so bit 0 is clear. */
  type GType = t: nat | t % 2 == 0

  /** `G_TYPE_NONE`, the type of `()`. */
  const TYPE_UNIT: GType := 4

  /** `G_TYPE_FLAG_RESERVED_ID_BIT`, which `G_SIGNAL_TYPE_STATIC_SCOPE` sets. */
  const RESERVED_ID_BIT: nat := 1

  /** `SignalType` wraps a raw `GType` that may carry the reserved bit. */
  datatype SignalType = SignalType(raw: nat)

  /** `raw | RESERVED_ID_BIT`. */
  function WithStaticScope(t: GType): (s: SignalType)
  {
    SignalType(t + RESERVED_ID_BIT)
  }

  /** `From<Type> for SignalType`. */
  function FromType(t: GType): (s: SignalType)
  {
    SignalType(t)
  }

  /** `raw & RESERVED_ID_BIT != 0`. */
  predicate StaticScope(s: SignalType)
  {
    s.raw % 2 == 1
  }

  /** `From<SignalType> for Type`: `raw & !RESERVED_ID_BIT`. */
  function TypeOf(s: SignalType): (t: GType)
    ensures t <= s.raw && s.raw - t < 2
  {
    s.raw - s.raw % 2
  }

  /** `PartialEq<Type> for SignalType`. */
  predicate SignalTypeEq(s: SignalType, t: GType)
  {
    TypeOf(s) == t
  }

  /**
   * The static-scope bit is set only by `with_static_scope`, and converting
   * back to a `Type` drops it, so a signal type compares equal to its
   * `Type` with or without the bit.
   */
  lemma StaticScopeRoundTrip(t: GType, u: GType)
    ensures StaticScope(WithStaticScope(t)) && !StaticScope(FromType(t))
    ensures TypeOf(WithStaticScope(t)) == t && TypeOf(FromType(t)) == t
    ensures SignalTypeEq(WithStaticScope(t), u) <==> t == u
    ensures SignalTypeEq(FromType(t), u) <==> t == u
  {
  }

  /** `GSignalFlags` bits. */
  const RUN_FIRST: Bit := 0
  const RUN_LAST: Bit := 1
  const RUN_CLEANUP: Bit := 2
  const NO_RECURSE: Bit := 3
  const DETAILED: Bit := 4
  const ACTION: Bit := 5
  const NO_HOOKS: Bit := 6
  const MUST_COLLECT: Bit := 7
  const DEPRECATED: Bit := 8

  const RUN_STAGES: Word := {RUN_FIRST, RUN_LAST, RUN_CLEANUP}

  /** The flags `build` gives the signal: `RUN_LAST` is added when no run stage is set. */
  function BuildFlags(flags: Word): (r: Word)
    ensures flags <= r
    ensures r * RUN_STAGES != {}
    ensures RUN_LAST in r - flags <==> flags * RUN_STAGES == {}
    ensures r - flags <= {RUN_LAST}
  {
    if flags * RUN_STAGES == {} then
      assert RUN_LAST in (flags + {RUN_LAST}) * RUN_STAGES;
      flags + {RUN_LAST}
    else flags
  }

  lemma BuildFlagsIdempotent(flags: Word)
    ensures BuildFlags(BuildFlags(flags)) == BuildFlags(flags)
  {
  }

  /** A flags result of the typed accumulator closure (`ControlFlow<Option<R>, Option<R>>`). */
  datatype AccumulatorFlow<R> = Continue(next: Option<R>) | Break(next: Option<R>)

  /**
   * The wrapper `accumulator` installs: replace the accumulated value when
   * the closure gave `Some`, and go on with the emission iff it said `Continue`.
   */
  function AccumulatorStep<R>(flow: AccumulatorFlow<R>, accu: R): (r: (R, bool))
    ensures r.1 <==> flow.Continue?
    ensures flow.next.None? ==> r.0 == accu
    ensures flow.next.Some? ==> r.0 == flow.next.value
  {
    (match flow.next case Some(n) => n case None => accu, flow.Continue?)
  }

  /** `register` passes the accumulator to GLib only when the return type is not `()`. */
  function InstalledAccumulator<A>(accumulator: Option<A>, returnType: SignalType): (r: Option<A>)
    ensures r.Some? <==> accumulator.Some? && TypeOf(returnType) != TYPE_UNIT
    ensures r.Some? ==> r == accumulator
  {
    if accumulator.Some? && TypeOf(returnType) != TYPE_UNIT then accumulator else None
  }

  /**
   * The check the class-handler closure makes of what the handler returned
   * (the type of the returned value, if any): `()` signals must return
   * nothing, others a value of a subtype of the return type.
   */
  predicate ClassHandlerResultOk(returnType: SignalType, res: Option<GType>, isA: (GType, GType) -> bool)
  {
    if TypeOf(returnType) == TYPE_UNIT then res.None? else res.Some? && isA(res.value, TypeOf(returnType))
  }

  /** The panics of the class-handler closure, with the types it reports. */
  datatype HandlerPanic =
    | ValueFromUnitSignal(got: GType)
    | NoValue
    | WrongReturnType(expected: GType, got: GType)

  /**
   * The closure `register` wraps around the class handler, given what the
   * handler returned (`typeOf` is `Value::type_`): the result is passed on
   * when it fits the return type, and otherwise the closure panics.
   */
  function ClassHandlerOutcome<V>(returnType: SignalType, res: Option<V>, typeOf: V -> GType,
                                  isA: (GType, GType) -> bool): (r: Result<Option<V>, HandlerPanic>)
    ensures r.Ok? <==> ClassHandlerResultOk(returnType, if res.Some? then Some(typeOf(res.value)) else None, isA)
    ensures r.Ok? ==> r.value == res
    ensures r.Err? && r.error.ValueFromUnitSignal? ==>
      TypeOf(returnType) == TYPE_UNIT && res.Some? && r.error.got == typeOf(res.value)
    ensures r.Err? && r.error.NoValue? ==> TypeOf(returnType) != TYPE_UNIT && res.None?
    ensures r.Err? && r.error.WrongReturnType? ==>
      res.Some? && r.error == WrongReturnType(TypeOf(returnType), typeOf(res.value))
  {
    if TypeOf(returnType) == TYPE_UNIT then
      match res
      case Some(v) => Err(ValueFromUnitSignal(typeOf(v)))
      case None => Ok(res)
    else
      match res
      case None => Err(NoValue)
      case Some(v) =>
        if !isA(typeOf(v), TypeOf(returnType)) then Err(WrongReturnType(TypeOf(returnType), typeOf(v)))
        else Ok(res)
  }

  datatype Registration<H, A> =
    | Unregistered(classHandler: Option<H>, accumulator: Option<A>)
    | Registered(typ: GType, signalId: nat)

  /** A built `Signal`, whose registration state changes once the owning type registers it. */
  class Signal<H, A> {
    const name: seq<Text.byte>
    const flags: Word
    const paramTypes: seq<SignalType>
    const returnType: SignalType
    var registration: Registration<H, A>

    constructor (name: seq<Text.byte>, flags: Word, paramTypes: seq<SignalType>, returnType: SignalType,
                 classHandler: Option<H>, accumulator: Option<A>)
      ensures this.name == name && this.flags == flags && this.paramTypes == paramTypes
      ensures this.returnType == returnType
      ensures registration == Unregistered(classHandler, accumulator)
    {
      this.name := name;
      this.flags := flags;
      this.paramTypes := paramTypes;
      this.returnType := returnType;
      registration := Unregistered(classHandler, accumulator);
    }

    /** `signal_id`: `None` is the "not registered yet" panic. */
    method SignalId() returns (id: Option<nat>)
      ensures registration.Unregistered? <==> id.None?
      ensures registration.Registered? ==> id == Some(registration.signalId)
    {
      match registration
      case Unregistered(_, _) => id := None;
      case Registered(_, sid) => id := Some(sid);
    }

    /** `type_`: `None` is the "not registered yet" panic. */
    method Type() returns (t: Option<GType>)
      ensures registration.Unregistered? <==> t.None?
      ensures registration.Registered? ==> t == Some(registration.typ)
    {
      match registration
      case Unregistered(_, _) => t := None;
      case Registered(typ, _) => t := Some(typ);
    }

    /**
     * `register`: hands the handler and (for non-`()` signals) the
     * accumulator to `g_signal_newv`, whose id is `newId`, and records the
     * registration. `false` is a panic: a second registration is
     * unreachable, and `SignalId::from_glib` asserts the id is non-zero.
     */
    method Register(typ: GType, newId: nat) returns (ok: bool, installed: Option<A>)
      modifies this
      ensures ok <==> old(registration).Unregistered? && newId != 0
      ensures ok ==> registration == Registered(typ, newId)
      ensures ok ==> installed == InstalledAccumulator(old(registration).accumulator, returnType)
      ensures !ok ==> registration == old(registration) && installed.None?
    {
      if registration.Registered? || newId == 0 {
        return false, None;
      }
      installed := InstalledAccumulator(registration.accumulator, returnType);
      registration := Registered(typ, newId);
      ok := true;
    }
  }

  /** `SignalBuilder`: the flags, class handler and accumulator collected so far. */
  class SignalBuilder<H, A> {
    const name: seq<Text.byte>
    const paramTypes: seq<SignalType>
    const returnType: SignalType
    var flags: Word
    var classHandler: Option<H>
    var accumulator: Option<A>

    /** `Signal::builder`, once the name has been checked. */
    constructor (name: seq<Text.byte>, paramTypes: seq<SignalType>, returnType: SignalType)
      ensures this.name == name && this.paramTypes == paramTypes && this.returnType == returnType
      ensures flags == {} && classHandler.None? && accumulator.None?
    {
      this.name := name;
      this.paramTypes := paramTypes;
      this.returnType := returnType;
      flags := {};
      classHandler := None;
      accumulator := None;
    }

    /** `run_first`, `run_last`, …, `deprecated`: each ORs in its own flag. */
    method AddFlag(f: Bit)
      modifies this
      ensures flags == old(flags) + {f}
      ensures classHandler == old(classHandler) && accumulator == old(accumulator)
    {
      flags := flags + {f};
    }

    /** `flags`: replaces the whole set. */
    method SetFlags(f: Word)
      modifies this
      ensures flags == f
      ensures classHandler == old(classHandler) && accumulator == old(accumulator)
    {
      flags := f;
    }

    method ClassHandler(h: H)
      modifies this
      ensures classHandler == Some(h) && flags == old(flags) && accumulator == old(accumulator)
    {
      classHandler := Some(h);
    }

    /** `accumulator` / `accumulator_with_values`. */
    method Accumulator(a: A)
      modifies this
      ensures accumulator == Some(a) && flags == old(flags) && classHandler == old(classHandler)
    {
      accumulator := Some(a);
    }

    /** `build`: an unregistered signal with `BuildFlags` of the builder's flags. */
    method Build() returns (s: Signal<H, A>)
      ensures fresh(s)
      ensures s.name == name && s.flags == BuildFlags(flags) && s.paramTypes == paramTypes
      ensures s.returnType == returnType && s.registration == Unregistered(classHandler, accumulator)
    {
      s := new Signal(name, BuildFlags(flags), paramTypes, returnType, classHandler, accumulator);
    }
  }

  /** `Signal::builder`: `null` is the panic on a name that is not canonical. */
  method Builder<H, A>(name: seq<Text.byte>, paramTypes: seq<SignalType>, returnType: SignalType)
    returns (b: SignalBuilder?<H, A>)
    ensures b == null <==> !Utils.IsCanonicalPspecName(name)
    ensures b != null ==> fresh(b) && b.name == name && b.flags == {} && b.classHandler.None? && b.accumulator.None?
  {
    if !Utils.IsCanonicalPspecName(name) {
      return null;
    }
    b := new SignalBuilder(name, paramTypes, returnType);
  }

  /** A signal built with only `action()` runs last; one built with `run_first()` keeps its flags. */
  method BuildExamples(name: seq<Text.byte>) returns (a: Word, f: Word)
    ensures a == {ACTION, RUN_LAST} && f == {RUN_FIRST}
  {
    var b1 := new SignalBuilder<int, int>(name, [], FromType(TYPE_UNIT));
    b1.AddFlag(ACTION);
    var s1 := b1.Build();
    var b2 := new SignalBuilder<int, int>(name, [], FromType(TYPE_UNIT));
    b2.AddFlag(RUN_FIRST);
    var s2 := b2.Build();
    a, f := s1.flags, s2.flags;
  }
}
