# gtk-rs-core: a verified model of its sequential logic

gtk-rs-core is the set of Rust bindings for GLib, GObject, GIO, cairo and
gdk-pixbuf, plus the `glib-macros` procedural macros. Most of it forwards
straight to C. This project models the parts that decide something on the
Rust side, and proves what they promise.

- **Value translation.** The gboolean, char, `Ordering` and `Option`
  translations of `glib::translate`, and `c_ptr_array_len`. The cairo and
  gdk-pixbuf enum and status tables all share one scheme, including its
  `__Unknown` fallback. Also modelled: GLib log levels and the bridge to
  the `log` crate.
- **Strings.** NUL-terminated `GStr`/`GString` and canonical property
  names. GVariant type strings, the signature derived for a struct, and
  `cstr_bytes!`. The `%` escaping of log messages and the names derived
  for properties and signals.
- **Flag words.** `FlagsClass` and the `FlagsBuilder` latch. Signal flags
  and the static-scope bit of `SignalType`. `BindingBuilder` flags.
- **State machines.** Once-only source callbacks and signal registration.
  The lazy and eager registration of dynamic types that the macros
  generate. The open, closed and panicked states of `WriteOutputStream`.
  The in-memory file system and the enumerators of the GIO subclassing
  tests.
- **In-place updates.** `put_pixel` on a strided pixel buffer and
  `ArgumentList::remove` on a NULL-terminated vector. The class-data and
  instance-data maps of `TypeData`, which are created on first use and
  reject duplicate keys.
- **Validation and dispatch.** Property and signal-argument checks,
  object construction and type coercion. The fallbacks of a `GFile`
  subclass when its parent lacks a virtual function. The property-id
  layout of `GAction`.
- **Macro front ends.** The parsers of `clone!` and the capture rules of
  `#[clone]`/`#[closure]`. The rules of `#[derive(Properties)]`,
  `#[glib::signals]`, `#[signals]`, `#[derive(Variant)]`,
  `#[derive(Enum)]`, `#[object_subclass]`, `#[object_interface]` and
  `#[derive(SharedBoxed)]`.

Each Rust file of the modelled core has one Dafny module. A few modules
hold the rules that several files share:

- `Wrappers`: `Option`/`Result`.
- `Text`: UTF-8 and ASCII classes.
- `Bits`: flag words as sets of bit positions.
- `CodeTable`: the enum-binding scheme.
- `DynamicType`: the lazy registration status.

How the source's constructs map into the model:

- A panic (`assert!`, `unwrap`, `expect`, `unreachable!`) is modelled as
  an `Err`, a `None` or a `false` flag.
- State that the source updates in place is a class. Its methods are
  proved against pure specification functions.
- Pure code is modelled as functions and lemmas.
- The answers of C code and of the GObject type system are parameters:
  what a registration returns, the parent's virtual function, `is_a`.

## Model

| member | source | states |
|---|---|---|
| Source.SourceIdFromGlib | glib/src/source.rs:31-36 | a raw id becomes a `SourceId` exactly when it is non-zero (zero is the `assert_ne!` panic), and the id is kept unchanged |
| Source.SourceIdAsRaw | glib/src/source.rs:23-28 | the raw id of a `SourceId` is a non-zero u32 from which `from_glib` rebuilds the same `SourceId` |
| Source.PidRoundTrip | glib/src/source.rs:47-62 | `Pid` to GLib and back is the identity in both directions (about `Source.PidIntoGlib` and `Source.PidFromGlib`, source.rs:47-62) |
| Source.ContinueIntoGlib | glib/src/source.rs:75-82 | `Continue` maps to GTRUE exactly when the source is to be kept, to GFALSE otherwise |
| Source.DefaultPriority | glib/src/source.rs:728-738 | the default priority is `PRIORITY_DEFAULT`, strictly between `PRIORITY_HIGH` and the idle/low priorities in GLib's ordering |
| Source.PriorityRoundTrip | glib/src/source.rs:708-726 | `Priority` to GLib and back is the identity in both directions (about `Source.PriorityIntoGlib` and `Source.PriorityFromGlib`, source.rs:711-726) |
| Source.OnceCall | glib/src/source.rs:151-156 | one call of the wrapped closure takes the pending `FnOnce`: afterwards nothing is pending and what ran is what was pending |
| Source.EmptyOnceAlwaysPanics | glib/src/source.rs:151-156 | a wrapper whose closure was already taken runs nothing and panics on every one of `n` calls |
| Source.OnceRunsExactlyOnce | glib/src/source.rs:144-157 | `n > 0` calls of a fresh wrapper run the closure exactly once and the other `n - 1` calls panic |
| Source.OnceWrapper.constructor | glib/src/source.rs:150 | a new wrapper holds the closure as pending, has run nothing, and answers with the given `Continue` |
| Source.OnceWrapper.Call | glib/src/source.rs:151-156 | a call runs the pending closure and returns the stop value (`Continue(false)`), or, when nothing is pending, panics (`None`) and runs nothing |
| Source.FnmutCallbackWrapper | glib/src/source.rs:147-179 | both wrappers produce a fresh callback holding the closure that returns `Continue(false)` |
| Source.CallTwice | glib/src/source.rs:144-157 | calling the callback twice runs the closure on the first call, which returns `Continue(false)`, and panics on the second |
| Translate.BoolToGlib | glib/src/translate.rs:299-310 | a `bool` maps to GTRUE or GFALSE, and is true exactly when the result is not GFALSE |
| Translate.BoolRoundTrip | glib/src/translate.rs:299-310 | `from_glib(to_glib(b)) == b` for every bool |
| Translate.BoolFromGlibOnlyFalseIsFalse | glib/src/translate.rs:1154-1159 | any non-GFALSE gboolean reads as true; only GFALSE reads as false, so the GLib side normalises to GTRUE/GFALSE (about `Translate.BoolFromGlib`, translate.rs:1154-1159) |
| Translate.CharToGlib | glib/src/translate.rs:312-319 | a `char` goes to GLib as its Unicode scalar value |
| Translate.OptionCharToGlib | glib/src/translate.rs:321-328 | `None` goes to 0 and `Some(c)` to `c`'s scalar value, so the result is 0 exactly for `None` and `Some('\0')` |
| Translate.OrderingToGlib | glib/src/translate.rs:330-341 | an `Ordering` maps into -1..1 |
| Translate.OrderingFromGlib | glib/src/translate.rs:1161-1166 | any i32 reads as `Less`, `Equal` or `Greater` exactly by its sign |
| Translate.OrderingRoundTrip | glib/src/translate.rs:330-341 | `from_glib(to_glib(o)) == o` for every `Ordering` |
| Translate.OrderingFromGlibKeepsSign | glib/src/translate.rs:1161-1166 | GLib to `Ordering` and back normalises an i32 to its sign |
| Translate.OptionToGlib | glib/src/translate.rs:343-358 | `None` becomes the type's `GLIB_NONE` sentinel and `Some(t)` becomes `t`'s own translation |
| Translate.NoneOrInvalidFrom | glib/src/translate.rs:1217-1221 | an inner error converts to the `Invalid` variant carrying that error, never to `None` |
| Translate.OptionFromGlib | glib/src/translate.rs:1186-1191 | the result is `None` exactly when `try_from_glib` fails, and otherwise the value it produced |
| Translate.ResultOptionFromGlib | glib/src/translate.rs:1237-1248 | a successful `try_from_glib` gives `Ok(Some(v))`, the `None` error gives `Ok(None)`, an `Invalid(e)` error gives `Err(e)` |
| Translate.OptionRoundTrip | glib/src/translate.rs:343-358 | when `try_from_glib` inverts `to_glib` and rejects the sentinel, an `Option<T>` survives the trip to GLib and back |
| Translate.SpecialU32TryFromGlib | glib/src/translate.rs:2467-2478 | the test type accepts exactly the values in u32 range, keeping them, and reports the -1 sentinel as the `None` error |
| Translate.SpecialU32Cases | glib/src/translate.rs:2480-2499 | 0 and 42 read as `Ok(Some(..))`, the sentinel as `Ok(None)` and -42 as an error, as the crate's tests require |
| Translate.FirstNull | glib/src/translate.rs:1568-1578 | the index found holds a null entry and every earlier entry is non-null |
| Translate.CPtrArrayLen | glib/src/translate.rs:1568-1578 | a null array has length 0; otherwise the length is the index of the first null entry, with no null before it |
| GlibUnix.FnmutCallbackWrapper | glib-unix/src/functions.rs:101-127 | the wrapper holds the one-shot callback, has not run it, and answers `Break` |
| GlibUnix.StreamSender.constructor | glib-unix/src/functions.rs:157-170 | a new stream channel has a live receiver and nothing queued |
| GlibUnix.StreamSender.DropReceiver | glib-unix/src/functions.rs:157-170 | dropping the stream closes the receiving side and leaves the queue as it was |
| GlibUnix.StreamSender.SignalRaised | glib-unix/src/functions.rs:161-168 | each signal queues one `()` and continues while the receiver lives; once it is gone nothing is queued and the source stops with `Break` |
| GlibUnix.FutureCallback.constructor | glib-unix/src/functions.rs:176-190 | a new future callback still owns its sender and has sent nothing |
| GlibUnix.FutureCallback.SignalRaised | glib-unix/src/functions.rs:180-186 | the first signal sends once and answers `Break`; a later call finds the sender taken and panics |
| GlibUnix.FutureSendsOnce | glib-unix/src/functions.rs:180-186 | across two calls the future's callback sends exactly one value, breaks, then panics |
| GString.FindNul | glib/src/gstring.rs:33-37 | finds the first NUL byte, or reports that there is none |
| GString.FromStrWithNul | glib/src/gstring.rs:33-37 | a string is accepted exactly when it ends in its only NUL byte, and is then used unchanged; a string without NUL is refused as not NUL-terminated |
| GString.AsStr | glib/src/gstring.rs:94-97 | the text of a `GStr` is everything but its trailing NUL, and contains no NUL |
| GString.ToBytesWithNul | glib/src/gstring.rs:64-66 | the bytes with the terminator are the whole stored slice |
| GString.ToBytes | glib/src/gstring.rs:73-75 | the bytes without the terminator are the text |
| GString.BytesWithNulIsBytesPlusNul | glib/src/gstring.rs:64-75 | the bytes with NUL are the bytes without it followed by one NUL |
| GString.DefaultGStr | glib/src/gstring.rs:133-138 | the default `GStr` is the empty text |
| GString.FromStrWithNulAsStr | glib/src/gstring.rs:33-37 | any NUL-free text followed by NUL is accepted and reads back as that text |
| GString.GStringAsStr | glib/src/gstring.rs:363-379 | a native string's text is its C string; a foreign one's is its first `len` bytes |
| GString.FromStr | glib/src/gstring.rs:681-697 | copying a `&str` allocates len + 1 bytes ending in NUL whose text is the input |
| GString.FromString | glib/src/gstring.rs:654-664 | moving a `String` keeps its text |
| GString.IntoString | glib/src/gstring.rs:627-643 | converting back to `String` gives the `GString`'s text |
| GString.StrRoundTrip | glib/src/gstring.rs:627-697 | text converted into a `GString` either way and back is unchanged |
| GString.FromVec | glib/src/gstring.rs:699-717 | a byte vector becomes a `GString` exactly when it has no NUL and is UTF-8 (otherwise a panic), keeping its bytes |
| GString.AsGStr | glib/src/gstring.rs:383-393 | the `GStr` view is the text followed by NUL |
| GString.Clone | glib/src/gstring.rs:427-431 | a clone is a foreign copy with the same text |
| GString.FromGlibNoneNum | glib/src/gstring.rs:905-912 | NULL or length 0 gives the empty string; otherwise the first `num` bytes, which must be UTF-8 (else a panic) |
| GString.FromGlibNoneNumCases | glib/src/gstring.rs:1148-1156 | the unit-test cases: NULL with 0 is empty, and 5 bytes of `hello_world` read `hello` |
| GString.CompareEqualIffSame | glib/src/gstring.rs:473-477 | byte-wise comparison says Equal exactly for equal texts (about `GString.Compare`, the byte order `str::cmp` uses at gstring.rs:473-477) |
| GString.CompareAntisymmetric | glib/src/gstring.rs:473-477 | `a < b` exactly when `b > a` (about `GString.Compare`) |
| GString.EqOrdHashConsistent | glib/src/gstring.rs:455-489 | equality, ordering and hashing all look only at the text: `cmp` is Equal exactly for equal strings, and equal strings hash alike (about `GString.GStringCmp`, gstring.rs:473-483, `GString.GStringEq`, gstring.rs:485-489, and `GString.GStringHash`, gstring.rs:455-459) |
| GString.NativeEqualsForeign | glib/src/gstring.rs:485-489 | a native and a foreign `GString` with the same text are equal |
| Log.LevelBit | glib/src/log.rs:48-56 | each level maps to one of the six GLib level bits |
| Log.IntoGlib | glib/src/log.rs:45-58 | a level becomes the flag word holding just its bit |
| Log.IntoGlibInjective | glib/src/log.rs:45-58 | distinct levels give distinct flags |
| Log.FromGlib | glib/src/log.rs:61-79 | a flag word reads as its most severe level bit, and panics exactly when it has none |
| Log.LevelRoundTrip | glib/src/log.rs:45-79 | a level converted to GLib and back is unchanged |
| Log.LevelsFromGlib | glib/src/log.rs:109-113 | reading a level set keeps exactly the level bits present and drops everything else |
| Log.ToLogFlags | glib/src/log.rs:115-122 | the FATAL flag is set exactly when fatal, the RECURSION flag exactly when recursive, and no other flag |
| Log.EscapeProperties | glib/src/log.rs:345-365 | escaping doubles each `%`, so it unescapes back to the message, grows by one per `%`, and leaves `%`-free text alone (about `Log.Escape`, the `%` doubling of log.rs:345-365; `Log.Unescape` is the reading it is proved against) |
| Log.EscapeAppend | glib/src/log.rs:348-356 | escaping a concatenation is concatenating the escapes, so writes in pieces escape like one write |
| Log.FindPercent | glib/src/log.rs:349 | the split point is the first `%`, or none when there is no `%` |
| Log.GWrite.constructor | glib/src/log.rs:345 | a new writer's buffer is empty |
| Log.GWrite.WriteStr | glib/src/log.rs:348-356 | writing a string appends its escaped form to the buffer |
| Log.GWrite.WriteChar | glib/src/log.rs:358-365 | writing a character appends its escaped form |
| BridgedLogging.LevelToGlib | glib/src/bridged_logging.rs:108-118 | no Rust level maps to GLib's fatal error level (errors become critical) nor to message; trace becomes debug |
| BridgedLogging.LevelFromGlib | glib/src/bridged_logging.rs:248-254 | no GLib level is forwarded to Rust as trace |
| BridgedLogging.LevelBridgeRoundTrip | glib/src/bridged_logging.rs:108-118 | with the reverse mapping of bridged_logging.rs lines 248-254, a Rust level survives the trip to GLib and back except trace, which returns as debug; a GLib level survives the reverse trip exactly when it is critical, warning, info or debug |
| BridgedLogging.HandlerTarget | glib/src/bridged_logging.rs:256 | the `log` target is the GLib domain, or `<null>` without one |
| BridgedLogging.SelectDomain | glib/src/bridged_logging.rs:167-171 | no domain, the record's target, or its module path, as the logger is configured |
| BridgedLogging.Enabled | glib/src/bridged_logging.rs:157-159 | the logger reports every record as enabled |
| BridgedLogging.LineAndFileMessage | glib/src/bridged_logging.rs:182-200 | `file:line: message` with both known, `file: message` with only the file, the bare message otherwise |
| BridgedLogging.LogRecord | glib/src/bridged_logging.rs:162-226 | one GLib call at the mapped level; the unstructured formats use the selected domain, the plain format the bare message, and every unstructured message ends with the record's own message |
| BridgedLogging.LogExamples | glib/src/bridged_logging.rs:182-200 | the three shapes of a line-and-file message on concrete inputs |
| Types.Downcast | glib/src/subclass/types.rs:418-423 | a boxed value is returned exactly when it is asked for at its stored type, and then unchanged |
| Types.InsertNew | glib/src/subclass/types.rs:452-466 | inserting into an absent map creates it; a key already present is refused (the assertion panic); otherwise the map gains exactly that key with that value |
| Types.InsertNewKeepsOthers | glib/src/subclass/types.rs:452-466 | a successful insert stores the new value under its key and keeps every other key and value as it was |
| Types.LookupData | glib/src/subclass/types.rs:418-423 | data is found exactly when the map exists, has the key, and the stored value has the requested type; then it is the stored value |
| Types.SetThenGet | glib/src/subclass/types.rs:418-466 | data set under a key and read back at the same type is the data set, and reads under other keys are unaffected |
| Types.ImpInstanceInverse | glib/src/subclass/types.rs:650-672 | going from an instance to its implementation (`+impl_offset`) and back (`-impl_offset`) returns the same address, in either order |
| Types.TypeData.constructor | glib/src/subclass/types.rs:494-501 | new type data has an invalid type, zero offsets, and no parent-interface or class-data map |
| Types.TypeData.ParentInterface | glib/src/subclass/types.rs:404-411 | the parent interface is found exactly when the map exists and holds the interface; a missing map or missing interface is the panic |
| Types.TypeData.SetClassData | glib/src/subclass/types.rs:452-466 | the class data map changes exactly as `InsertNew` says and fails only on a duplicate key, leaving the map alone; nothing else changes |
| Types.TypeData.InterfaceInit | glib/src/subclass/types.rs:237-259 | the parent interface copy is recorded under the interface type, creating the map on first use; nothing else changes |
| Types.InterfaceInitThenParent | glib/src/subclass/types.rs:237-259 | after `interface_init`, `parent_interface` for that interface returns the recorded copy |
| Types.PrivateStruct.constructor | glib/src/subclass/types.rs:843-846 | a new private struct has no instance data map |
| Types.PrivateStruct.SetInstanceData | glib/src/subclass/types.rs:751-779 | succeeds exactly when the subclass type is registered and the key is new, updating the map as `InsertNew` says; a failure leaves the map alone |
| Types.RegisterTypeCheck | glib/src/subclass/types.rs:888-904 | registration is allowed exactly when the alignment is at most two `usize`s, the name has no NUL byte and no type of that name exists; a too-large alignment is the first error reported |
| Types.TypeRegistry.constructor | glib/src/subclass/types.rs:888-904 | the registry starts with no registered names |
| Types.TypeRegistry.RegisterType | glib/src/subclass/types.rs:888-953 | registration succeeds exactly when the checks pass, then maps the new name to a valid type id not used before; on failure the registry is unchanged |
| Utils.CanonicalShape | glib/src/utils.rs:284-290 | a name is canonical exactly when it is empty, or starts with an ASCII letter and continues with ASCII letters, digits and dashes |
| Utils.EmptyIsCanonical | glib/src/utils.rs:284-290 | the empty name is canonical |
| Utils.UnderscoreAndNonAsciiRejected | glib/src/utils.rs:284-290 | an underscore or a non-ASCII byte anywhere makes a name non-canonical |
| Utils.CanonicalPrefixClosed | glib/src/utils.rs:284-290 | every prefix of a canonical name is canonical |
| Utils.CanonicalExamples | glib/src/utils.rs:284-290 | `a-1` is canonical; `1a`, `-a` and `a_b` are not |
| VariantType.New | glib/src/variant_type.rs:299-317 | a string is accepted exactly when one complete type scans and ends at the end of the string; the result is the string itself, and any other string is the invalid-type-string error |
| VariantType.NewExamples | glib/src/variant_type.rs:590-617 | `((iii)s)` and `*` are valid; the empty string, an embedded NUL, a truncated and an over-long string are rejected |
| VariantType.ArrayOfValid | glib/src/variant_type.rs:357-361 | `a` followed by a valid type string is a valid type string, so the `expect` in `as_array` never fires |
| VariantType.AsArray | glib/src/variant_type.rs:346-364 | the array type of `t` is `a` followed by `t`, including in each of the five predefined shortcut cases |
| VariantType.ToOwned | glib/src/variant_type.rs:389-399 | the owned copy records the borrowed string's length and holds the same type string |
| VariantType.OwnedEqualsBorrowed | glib/src/variant_type.rs:649-658 | an owned copy is a valid type string equal, by string comparison, to the borrowed one |
| DynamicType.Register | glib-macros/src/enum_derive.rs:204-221 | registration returns the stored type; it registers only when a plugin has loaded the implementation and the type is still postponed, storing the type registered with that plugin |
| DynamicType.Load | glib-macros/src/enum_derive.rs:229-249 | the first load postpones registration with this plugin; a registered type is re-registered and the load fails exactly when re-registration gives an invalid type; a postponed type stays postponed; the stored plugin is never replaced |
| DynamicType.Unload | glib-macros/src/enum_derive.rs:254-268 | unloading succeeds exactly when a plugin has loaded the implementation; a postponed registration is cancelled, a registered type is kept |
| DynamicType.NoRegistrationBeforeLoad | glib-macros/src/enum_derive.rs:209-211 | before any load, registration leaves the state empty and returns the invalid type |
| DynamicType.FirstUseRegisters | glib-macros/src/enum_derive.rs:209-221 | the first use after the first load registers the type with the plugin of that load |
| DynamicType.RegisterOnce | glib-macros/src/enum_derive.rs:209-221 | once registered, registering again changes nothing and returns the same type |
| DynamicType.UnloadCancelsPostponed | glib-macros/src/enum_derive.rs:229-268 | unloading right after the first load forgets the postponed registration and succeeds |
| DynamicType.FailedReloadForgets | glib-macros/src/enum_derive.rs:229-268 | a reload whose re-registration fails reports failure and leaves the type postponed, so the next unload forgets it |
| DynamicType.RegisteredUntilReload | glib-macros/src/enum_derive.rs:204-268 | with no load in between, uses and unloads leave a registered type exactly as it is |
| DynamicType.PluginKept | glib-macros/src/enum_derive.rs:204-268 | without an unload a stored entry is never dropped and keeps the plugin of the load that created it |
| Object.FindProperty | glib/src/object.rs:3319-3328 | the property found has the requested name and comes from the class's list; none is found exactly when no property has that name |
| Object.HasPropertyMeaning | glib/src/object.rs:3296-3304 | `has_property(name, None)` holds exactly when a property of that name exists, and `has_property(name, Some(t))` exactly when it has type `t` |
| Object.CoerceObjectType | glib/src/object.rs:3246-3257 | a non-object value is refused with its own type; a null object or an object of a subtype is retyped to the target type (keeping the object); another object is refused with the object's type |
| Object.ValidatePropertyType | glib/src/object.rs:3188-3239 | a read-only property, or a construct-only one outside construction, is not writable (and only then); a wrong type is refused exactly when the value's type is not a subtype and coercion fails, with the type coercion reports; a value is refused as invalid exactly when it is writable, well typed, changed by validation and lax validation is off; an accepted value is the validated form of the retyped value, and is that value unchanged unless lax validation is on |
| Object.CoerceArgsFrom | glib/src/object.rs:3273-3289 | the accepted suffix of the arguments has one value per argument |
| Object.SignalArguments | glib/src/object.rs:3259-3271 | a count mismatch is refused before any argument is looked at |
| Object.CoerceArgsFromMeaning | glib/src/object.rs:3273-3289 | the arguments are accepted exactly when each has its parameter's type or coerces to it; accepted arguments carry the parameter types and keep their objects; a refusal names an argument whose type neither matches nor coerces |
| Object.SignalArgumentsMeaning | glib/src/object.rs:3259-3289 | `validate_signal_arguments` accepts exactly when the count matches and every argument matches or coerces, and then gives every argument its parameter's type |
| Object.ValidateSignalArguments | glib/src/object.rs:3259-3289 | the in-place walk over the argument slice succeeds exactly when the specification does, leaves the slice holding the retyped arguments, and otherwise reports the same error |
| Object.CollectFrom | glib/src/object.rs:1517-1545 | the property loop collects one name and one value per property |
| Object.NewObject | glib/src/object.rs:1491-1545 | a non-object type, a non-instantiatable type and an abstract type are refused, in that order, before any property is looked at |
| Object.NewInternal | glib/src/object.rs:1491-1545 | the imperative `new_internal`, with its property loop, computes exactly the specification's answer |
| Object.ConstructOnceAppend | glib/src/object.rs:1524-1535 | adding a name that is new, or whose property is not a construct property, keeps every construct property at most once |
| Object.CollectFromConstructOnce | glib/src/object.rs:1524-1535 | the names `new_internal` passes on never hold a construct property twice |
| Object.CollectFromNames | glib/src/object.rs:1518-1543 | every collected name is the given name of a property that exists |
| Object.BindingBuilder.constructor | glib/src/object.rs:3604-3620 | a new builder binds the given properties with no flags and no transforms |
| Object.BindingBuilder.Flags | glib/src/object.rs:3701-3703 | `flags` replaces all flags and keeps the transforms |
| Object.BindingBuilder.Bidirectional | glib/src/object.rs:3707-3710 | adds `BIDIRECTIONAL` to the flags already set |
| Object.BindingBuilder.SyncCreate | glib/src/object.rs:3714-3717 | adds `SYNC_CREATE` to the flags already set |
| Object.BindingBuilder.InvertBoolean | glib/src/object.rs:3721-3724 | adds `INVERT_BOOLEAN` to the flags already set |
| Object.BindingBuilder.TransformTo | glib/src/object.rs:3665-3697 | installs the forward transform and changes nothing else |
| Object.BindingBuilder.TransformFrom | glib/src/object.rs:3626-3661 | installs the backward transform and changes nothing else |
| ObjectInterface.HasPrerequisites | glib-macros/src/object_interface_attribute.rs:61-69 | the scan finds `Prerequisites` exactly when the block defines a type of that name |
| ObjectInterface.ImplObjectInterface | glib-macros/src/object_interface_attribute.rs:12-100 | the errors come in order (self type not an identifier, bad dynamic attribute, not a trait impl), success exactly when none applies; `type Prerequisites = ();` is added exactly when missing, and the dynamic attribute is removed |
| ObjectInterface.StaticInterface.constructor | glib-macros/src/object_interface_attribute.rs:112-118 | the once-cell starts empty |
| ObjectInterface.StaticInterface.RegisterInterface | glib-macros/src/object_interface_attribute.rs:112-118 | the interface is registered on the first call only; every later call returns the first type |
| ObjectInterface.LazyDynamicInterface.constructor | glib-macros/src/object_interface_attribute.rs:151 | the registration status starts as `None` |
| ObjectInterface.LazyDynamicInterface.RegisterInterface | glib-macros/src/object_interface_attribute.rs:158-171 | follows the shared registration state machine: `INVALID` before any load, register once when pending, then the stored type |
| ObjectInterface.LazyDynamicInterface.OnImplementationLoad | glib-macros/src/object_interface_attribute.rs:179-197 | follows the shared load transition (postpone on first load, re-register when registered) |
| ObjectInterface.LazyDynamicInterface.OnImplementationUnload | glib-macros/src/object_interface_attribute.rs:203-216 | follows the shared unload transition (fail before any load, cancel a pending registration) |
| ObjectInterface.DynamicInterface.constructor | glib-macros/src/object_interface_attribute.rs:226 | the stored type starts as `G_TYPE_INVALID` |
| ObjectInterface.DynamicInterface.RegisterInterface | glib-macros/src/object_interface_attribute.rs:232-235 | returns the type stored by the last load |
| ObjectInterface.DynamicInterface.OnImplementationLoad | glib-macros/src/object_interface_attribute.rs:240-244 | stores the newly registered type and succeeds exactly when it is valid |
| ObjectInterface.DynamicInterface.OnImplementationUnload | glib-macros/src/object_interface_attribute.rs:248-250 | unloading always succeeds |
| ObjectSubclass.ScanItems | glib-macros/src/object_subclass_attribute.rs:60-87 | the loop over the items sets each `has_*` flag exactly when the block defines that item |
| ObjectSubclass.DefaultsIff | glib-macros/src/object_subclass_attribute.rs:89-116 | each default (`ParentType`, `Interfaces`, `Class`, `Instance`, `new`) is inserted exactly when the block lacks it |
| ObjectSubclass.RemoveAttr | glib-macros/src/object_subclass_attribute.rs:45 | removing the dynamic attribute drops every copy of it and keeps only other attributes; `RemoveAttrAppend`, `RemoveAttrSingle` and `RemoveAttrCopies` state the order and the copies kept |
| ObjectSubclass.RemoveAttrSingle | glib-macros/src/object_subclass_attribute.rs:45 | one attribute is dropped exactly when its path is the dynamic attribute's, and kept otherwise |
| ObjectSubclass.RemoveAttrAppend | glib-macros/src/object_subclass_attribute.rs:45 | `retain` over two pieces is `retain` over each, concatenated: together with `RemoveAttrSingle`, the kept attributes stay in their order |
| ObjectSubclass.RemoveAttrCopies | glib-macros/src/object_subclass_attribute.rs:45 | the removed name has no copy left and every other attribute keeps as many copies as it had |
| ObjectSubclass.ImplObjectSubclass | glib-macros/src/object_subclass_attribute.rs:12-198 | the errors come in order (self type not an identifier, bad dynamic attribute, not a trait impl), success exactly when none applies; the output holds the block's items, the missing defaults, the chosen registration, and the attributes without the dynamic one |
| ObjectSubclass.StaticSubclass.constructor | glib-macros/src/object_subclass_attribute.rs:214 | the `Once` starts not yet run |
| ObjectSubclass.StaticSubclass.RegisterType | glib-macros/src/object_subclass_attribute.rs:212-218 | however often `register_type` is called, the type is registered exactly once |
| ObjectSubclass.LazyDynamicSubclass.constructor | glib-macros/src/object_subclass_attribute.rs:252 | the registration status starts as `None` |
| ObjectSubclass.LazyDynamicSubclass.RegisterType | glib-macros/src/object_subclass_attribute.rs:259-271 | follows the shared registration transition: nothing before any load, register once when pending |
| ObjectSubclass.LazyDynamicSubclass.OnImplementationLoad | glib-macros/src/object_subclass_attribute.rs:279-297 | follows the shared load transition |
| ObjectSubclass.LazyDynamicSubclass.OnImplementationUnload | glib-macros/src/object_subclass_attribute.rs:303-316 | follows the shared unload transition |
| ObjectSubclass.EagerOnImplementationLoad | glib-macros/src/object_subclass_attribute.rs:331-334 | loading registers the subclass and succeeds exactly when the type is valid |
| ObjectSubclass.EagerOnImplementationUnload | glib-macros/src/object_subclass_attribute.rs:338-340 | unloading always succeeds |
| Signal.TypeOf | glib/src/subclass/signal.rs:303-309 | converting a signal type back to a `Type` clears only the static-scope bit |
| Signal.StaticScopeRoundTrip | glib/src/subclass/signal.rs:283-316 | only `with_static_scope` sets the static-scope bit; either way the signal type converts back to, and compares equal with, exactly the original `Type` (about `Signal.WithStaticScope`, signal.rs:284-286, and `Signal.FromType`, signal.rs:297-300) |
| Signal.BuildFlags | glib/src/subclass/signal.rs:540-548 | `build` keeps every flag given and guarantees a run stage (adding `RUN_LAST` when none is set) |
| Signal.BuildFlagsIdempotent | glib/src/subclass/signal.rs:540-548 | building from already-built flags changes nothing |
| Signal.AccumulatorStep | glib/src/subclass/signal.rs:498-509 | the accumulated value is replaced exactly when the closure returns `Some`, and emission goes on exactly on `Continue` |
| Signal.InstalledAccumulator | glib/src/subclass/signal.rs:708-716 | an accumulator reaches GLib exactly when one was given and the return type is not `()` |
| Signal.ClassHandlerOutcome | glib/src/subclass/signal.rs:645-666 | the wrapped class handler passes its result on exactly when a `()` signal returned nothing or another signal returned a value of a subtype of its return type; otherwise it panics saying which of the three cases failed and with which types |
| Signal.Signal.constructor | glib/src/subclass/signal.rs:550-561 | a new signal holds its name, flags and types and is unregistered with its handler and accumulator |
| Signal.Signal.SignalId | glib/src/subclass/signal.rs:614-621 | the id is available exactly once registered (otherwise "not registered yet") and is the registered id |
| Signal.Signal.Type | glib/src/subclass/signal.rs:625-630 | the owning type is available exactly once registered and is the registered type |
| Signal.Signal.Register | glib/src/subclass/signal.rs:632-730 | registration succeeds exactly from the unregistered state with a non-zero id, records the type and id, and installs the accumulator only for non-`()` signals; otherwise it panics and nothing changes |
| Signal.SignalBuilder.constructor | glib/src/subclass/signal.rs:576-583 | a new builder holds the name and types, no flags, no handler and no accumulator |
| Signal.SignalBuilder.AddFlag | glib/src/subclass/signal.rs:392-458 | each flag method adds its own flag to those already set |
| Signal.SignalBuilder.SetFlags | glib/src/subclass/signal.rs:461-464 | `flags` replaces the whole set and keeps handler and accumulator |
| Signal.SignalBuilder.ClassHandler | glib/src/subclass/signal.rs:468-484 | sets the class handler and changes nothing else |
| Signal.SignalBuilder.Accumulator | glib/src/subclass/signal.rs:487-534 | sets the accumulator and changes nothing else |
| Signal.SignalBuilder.Build | glib/src/subclass/signal.rs:540-561 | builds a fresh unregistered signal with the builder's name, types, handler, accumulator and the run-stage-completed flags |
| Signal.Builder | glib/src/subclass/signal.rs:566-584 | a builder is made exactly for a canonical name (otherwise a panic), empty of flags, handler and accumulator |
| Signal.BuildExamples | glib/src/subclass/signal.rs:540-548 | `action()` alone builds `ACTION | RUN_LAST`; `run_first()` alone stays `RUN_FIRST` |
| SignalsAttribute.ArgStep | glib-macros/src/signals_attribute.rs:49-64 | `ext_trait` (bare or `= Ident`) and `wrapper_type = Path` set their field; another bare identifier is skipped |
| SignalsAttribute.ParseArgs | glib-macros/src/signals_attribute.rs:45-74 | when every argument parses, the arguments are accepted exactly when a wrapper type was given |
| SignalsAttribute.ExtTraitIsLast | glib-macros/src/signals_attribute.rs:54-61 | `ext_trait` stays unset when never written, and otherwise the last `ext_trait` decides it |
| SignalsAttribute.ParseSignalAttr | glib-macros/src/signals_attribute.rs:88-122 | an option is accepted exactly when it is `accum = expr` or one of the seven bare flags; anything else is "Unsupported option" with its name |
| SignalsAttribute.ParseSignalAttrs | glib-macros/src/signals_attribute.rs:136-140 | an option list is accepted exactly when every option is, one parsed option per written one |
| SignalsAttribute.FirstSignalAttr | glib-macros/src/signals_attribute.rs:130-136 | finds the first attribute named `signal`, or reports that none is |
| SignalsAttribute.ExtractItems | glib-macros/src/signals_attribute.rs:127-152 | no `#[signal]` gives nothing; for the first one, a bare path gives no options and a name-value form is an error |
| SignalsAttribute.TypesAfterSelf | glib-macros/src/signals_attribute.rs:200-211 | the parameter types are the types of the inputs after `&self`, in order; another receiver among them panics |
| SignalsAttribute.SignalReturn | glib-macros/src/signals_attribute.rs:213-219 | there is no return type exactly for a missing one or `()` |
| SignalsAttribute.NewSignalDesc | glib-macros/src/signals_attribute.rs:178-232 | a method not starting with `&self` is refused; otherwise the signal is named after the method with `-` for `_`, takes as parameter types exactly the types of the inputs after `&self`, in order, keeps the return type (none for `()`) and flags, and has a class handler exactly for a method with a body; a second receiver among the inputs is the panic (`None`), and only that |
| SignalsAttribute.ItemContribution | glib-macros/src/signals_attribute.rs:248-291 | a signal method is kept as the same method with its attributes filtered by `SignalsMacro.NonSignalAttrs` (no `#[signal]`) and has a class handler; a bodiless signal declaration is dropped and has none; any other item is kept unchanged |
| SignalsAttribute.ContributionsStop | glib-macros/src/signals_attribute.rs:248-291 | after the first error or panic the later items change nothing |
| SignalsAttribute.ContributionsStep | glib-macros/src/signals_attribute.rs:248-291 | one more successful item appends its kept items and its signal to what came before |
| SignalsAttribute.ContributionsStepStops | glib-macros/src/signals_attribute.rs:248-291 | a failing item ends the loop with its error or panic |
| SignalsAttribute.ImplSignals | glib-macros/src/signals_attribute.rs:235-302 | a trait impl is refused; otherwise the in-place loop panics, fails or yields the kept items and the signal list exactly as the item-by-item specification does |
| SignalsAttribute.WrapperMethodNames | glib-macros/src/signals_attribute.rs:425-500 | each signal gets exactly a `connect_<name>` and an `emit_<name>` method |
| SignalsAttribute.EmitReturnType | glib-macros/src/signals_attribute.rs:454-475 | `emit_*` returns the signal's return type, or `()` without one |
| SignalsAttribute.WrapperNamesDistinct | glib-macros/src/signals_attribute.rs:433-434 | signals with distinct Rust names give wrapper methods with distinct names |
| CstrMacro.FirstNul | glib-macros/src/lib.rs:841-842 | the position of the first NUL byte, or none when there is no NUL |
| CstrMacro.CStringWithNul | glib-macros/src/lib.rs:841-843 | succeeds exactly on bytes without NUL, appending one NUL; otherwise the error is the position of the first interior NUL |
| CstrMacro.CstrBytes | glib-macros/src/lib.rs:836-851 | expands exactly one string literal without NUL into its bytes and a final NUL; an empty input is "unexpected end of input, expected string literal" at the invocation; a first token that is not a string literal is "expected string literal" at that token; a NUL in the literal is an error at the literal naming the first NUL's position, even when tokens follow; tokens after a NUL-free literal are "unexpected token" at the first of them |
| CstrMacro.NulReportedBeforeLeftover | glib-macros/src/lib.rs:839-843 | a literal holding a NUL is reported at the literal whatever tokens follow it, because syn's `parse2` checks for leftover tokens only after the closure has returned |
| CstrMacro.FromBytesWithNul | glib-macros/src/lib.rs:836-851 | a C reader of the expansion sees everything before a final and only NUL |
| CstrMacro.CstrRoundTrip | glib-macros/src/lib.rs:836-851 | reading the expansion back as a C string gives the literal's bytes |
| CstrMacro.CstrNulOnlyAtEnd | glib-macros/src/lib.rs:836-851 | the expansion's first NUL is its last byte, so a C reader sees the whole literal |
| Enums.LookupValue | glib/src/enums.rs:339-348 | a value of the class matching the bits, or none exactly when no value matches |
| Enums.LookupValueFirst | glib/src/enums.rs:339-348 | the value found is the first matching one in declaration order: every value before it fails to match |
| Enums.LookupName | glib/src/enums.rs:357-388 | a value whose name (or nick) is the one given, or none exactly when no value has it |
| Enums.LookupNameFirst | glib/src/enums.rs:357-388 | the value found is the first in declaration order with that name (or nick): no earlier value has it |
| Enums.SetWith | glib/src/enums.rs:473-537 | fails, giving back the original value, exactly on a type mismatch or an unknown flag; otherwise the flag's bits are added and the type kept |
| Enums.UnsetWith | glib/src/enums.rs:539-600 | fails, giving back the original value, exactly on a type mismatch or an unknown flag; otherwise the flag's bits are removed and the type kept |
| Enums.Set | glib/src/enums.rs:473-487 | fails, with the value unchanged, exactly on a type mismatch or when no value of the class matches `f`; otherwise it adds the bits of the first matching value, which lie within `f` |
| Enums.SetByName | glib/src/enums.rs:495-509 | fails, with the value unchanged, exactly on a type mismatch or when no value has that name; otherwise it adds the bits of the first value with that name |
| Enums.SetByNick | glib/src/enums.rs:517-531 | fails, with the value unchanged, exactly on a type mismatch or when no value has that nick; otherwise it adds the bits of the first value with that nick |
| Enums.Unset | glib/src/enums.rs:539-553 | fails, with the value unchanged, exactly on a type mismatch or when no value of the class matches `f`; otherwise it removes the bits of the first matching value, and only bits within `f` |
| Enums.UnsetByName | glib/src/enums.rs:561-575 | fails, with the value unchanged, exactly on a type mismatch or when no value has that name; otherwise it removes the bits of the first value with that name |
| Enums.UnsetByNick | glib/src/enums.rs:583-597 | fails, with the value unchanged, exactly on a type mismatch or when no value has that nick; otherwise it removes the bits of the first value with that nick |
| Enums.IsSet | glib/src/enums.rs:421-430 | false on a type mismatch, otherwise whether any bit of `f` is set |
| Enums.IsSetByName | glib/src/enums.rs:434-466 | false for an unknown name or nick or a type mismatch, otherwise `is_set` of the named flag's bits |
| Enums.SetUnsetIdempotent | glib/src/enums.rs:467-600 | setting a flag twice is setting it once; likewise unsetting |
| Enums.SetThenIsSet | glib/src/enums.rs:421-553 | after a successful `set` of a nonzero flag value `is_set` sees its bits, and after an `unset` it does not |
| Enums.ChainLatch | glib/src/enums.rs:742-800 | once a step has failed the builder stays empty whatever follows |
| Enums.ChainFailsIfAnyStepFails | glib/src/enums.rs:742-806 | a builder whose step fails builds nothing, whatever steps follow |
| Enums.FlagsBuilder.constructor | glib/src/enums.rs:731-734 | `new` starts from a zero value of the class's type |
| Enums.FlagsBuilder.Apply | glib/src/enums.rs:742-800 | every builder method applies its step to the held value and keeps `.ok()` of it; an empty builder stays empty |
| Enums.FlagsBuilder.Build | glib/src/enums.rs:803-805 | the held value, none if some step failed |
| Enums.BuilderWithValue | glib/src/enums.rs:609-615 | no builder exactly on a type mismatch, otherwise a new builder holding the value |
| Enums.SetValuesMembership | glib/src/enums.rs:687-699 | a value is reported exactly when it is a value of the class sharing a bit with the flags |
| Enums.FlagsFromValue | glib/src/enums.rs:687-699 | none exactly when the value's type is not a flags type, otherwise the class's values sharing a bit with the flags, in class order |
| Enums.EnumValueOrderIgnoresNames | glib/src/enums.rs:265-290 | enum values compare and are equal by their integer only, never by name or nick |
| Enums.EnumValueCmp | glib/src/enums.rs:273-284 | enum values are ordered by their integer value: less, equal and greater exactly as the integers are |
| Enums.FlagsValueEqIgnoresNames | glib/src/enums.rs:702-706 | flags values compare by value only (`Enums.FlagsValueEq`): names and nicks never matter, and equal values are selected by the same flags |
| Enums.FlagsBuilder.WithValue | glib/src/enums.rs:736-738 | `with_value` holds the given value |
| CodeTable.RangeWellFormed | cairo/src/enums.rs:2125-2203 | a binding whose codes are explicit ones around a run of consecutive ones is well formed when the explicit codes are distinct and outside the run |
| CodeTable.IndexOf | cairo/src/enums.rs:142-153 | the first variant carrying the code, and none exactly when no variant carries it |
| CodeTable.FromCode | cairo/src/enums.rs:140-155 | a code converts to the variant carrying it, and to `__Unknown` of itself exactly when no variant carries it |
| CodeTable.CodeRoundTrip | cairo/src/enums.rs:124-155 | code to enum to code is the identity for every code |
| CodeTable.VariantRoundTrip | cairo/src/enums.rs:124-155 | enum to code to enum is the identity for named variants and for `__Unknown` of a code no variant has |
| CodeTable.UnknownOfKnownCodeCollapses | cairo/src/enums.rs:124-155 | `__Unknown` of a code that a variant has comes back as that named variant, not as itself |
| CodeTable.ToCodeInjective | cairo/src/enums.rs:124-138 | two variants of a well-formed binding share a code only if they are the same variant |
| CodeTable.Display | gdk-pixbuf/src/auto/enums.rs:24-35 | the display is `Type::Variant`, and `Type::Unknown` for an unknown code |
| PixbufEnums.TablesWellFormed | gdk-pixbuf/src/auto/enums.rs:17-487 | each of the five gdk-pixbuf bindings gives every variant a code and no two variants the same code, so the round trips apply to each |
| PixbufEnums.ErrorCode | gdk-pixbuf/src/auto/enums.rs:346-348 | the error's domain code is its `into_glib` code, which decodes back to the same named error |
| PixbufEnums.ErrorFromCode | gdk-pixbuf/src/auto/enums.rs:350-361 | every code yields a named error: never `None` and never `__Unknown` |
| PixbufEnums.ErrorDomainAgreesWithFromGlib | gdk-pixbuf/src/auto/enums.rs:326-361 | the domain's decoding agrees with `from_glib` on every known code; an unknown code is `Failed` there and `__Unknown` in `from_glib` |
| PixbufEnums.ErrorDomainRoundTrip | gdk-pixbuf/src/auto/enums.rs:346-361 | decoding an error's own code gives the error back |
| PixbufEnums.DisplayExamples | gdk-pixbuf/src/auto/enums.rs:24-35 | with the `PixbufRotation` display of enums.rs lines 412-425, concrete displays: `PixbufRotation::Clockwise`, `PixbufRotation::Unknown`, `Colorspace::Rgb` |
| CairoEnums.TablesWellFormed1 | cairo/src/enums.rs:76-580 | in the bindings `Antialias` to `PathDataType` every variant has a code and no two variants share one, so each converts to its code and back, and unlisted codes round-trip through `__Unknown` |
| CairoEnums.TablesWellFormed2 | cairo/src/enums.rs:584-940 | the same for `Content` to `FontWeight` |
| CairoEnums.TablesWellFormed3 | cairo/src/enums.rs:943-1470 | the same for `TextClusterFlags` to `SurfaceType` |
| CairoEnums.TablesWellFormed4 | cairo/src/enums.rs:1477-1925 | the same for `SvgUnit` to `SvgVersion` |
| CairoEnums.TablesWellFormed5 | cairo/src/enums.rs:1929-2203 | the same for `PsLevel` to `DeviceType` |
| CairoEnums.ConversionExamples | cairo/src/enums.rs:1571-1643 | worked examples on concrete inputs, not a general property: as cairo numbers them, -1 is `Invalid`, 1 is `Rgb24`, an unlisted code stays unknown |
| CairoEnums.StrideForWidth | cairo/src/enums.rs:1653-1664 | panics exactly on a width above `i32::MAX`; otherwise `InvalidFormat` exactly when cairo answers -1, and cairo's stride when it does not |
| CairoEnums.CairoStrideForWidth | cairo/src/enums.rs:1657 | the stride of the C function called here, when not -1, is a non-negative multiple of 4 holding the row's bits |
| CairoEnums.StrideExamples | cairo/src/enums.rs:2205-2224 | the file's three stride tests: `u32::MAX` panics, `i32::MAX` is an error, width 1 gives stride 4 |
| CairoError.ErrorTableWellFormed | cairo/src/error.rs:10-240 | the status binding gives every variant a code, no two variants the same code, and one message per variant; `InvalidFormat` is status 16 |
| CairoError.StatusRoundTrip | cairo/src/error.rs:141-240 | status to `Error` and back is the identity for every status, listed or not, and only unlisted statuses become `__Unknown` |
| CairoError.ErrorRoundTrip | cairo/src/error.rs:141-240 | `Error` to status and back is the identity for every named variant and every `__Unknown` of an unlisted status |
| CairoError.Message | cairo/src/error.rs:10-140 | the display text is the variant's message, or `Unknown n` for an unlisted status |
| CairoError.UnknownMessageInjective | cairo/src/error.rs:137-139 | different unknown statuses display differently |
| CairoError.IoErrorFromCairo | cairo/src/error.rs:244-246 | a cairo error converts into the `Cairo` side of `IoError`, keeping the error |
| CairoError.IoErrorFromIo | cairo/src/error.rs:247-248 | an I/O error converts into the `Io` side, keeping its message |
| CairoError.IoErrorSources | cairo/src/error.rs:243-249 | the two sources never coincide and the message is prefixed `Cairo error: ` or `IO error: ` accordingly (about `CairoError.IoErrorMessage`, the `Display` of error.rs:243-249) |
| Pixbuf.NChannels | gdk-pixbuf/src/pixbuf.rs:44 | there are 4 channels exactly with alpha, 3 otherwise |
| Pixbuf.LastRowLenEightBits | gdk-pixbuf/src/pixbuf.rs:45 | with 8-bit samples the last row needs one byte per channel and pixel |
| Pixbuf.CheckSlice | gdk-pixbuf/src/pixbuf.rs:31-56 | the geometry is accepted exactly when width, height and row stride are positive, samples are 8 bits and the buffer reaches the end of the last row; each failed assertion is reported in the source's order |
| Pixbuf.PixelInBuffer | gdk-pixbuf/src/pixbuf.rs:51-54 | every sample of every pixel inside the image lies inside any buffer the length check accepts, whatever the row stride |
| Pixbuf.WithPixel | gdk-pixbuf/src/pixbuf.rs:305-312 | writing a pixel replaces exactly its `n_channels` bytes with its samples and keeps every other byte |
| Pixbuf.WithPixelIdempotent | gdk-pixbuf/src/pixbuf.rs:305-312 | writing the same pixel twice is writing it once |
| Pixbuf.WithPixelCommutes | gdk-pixbuf/src/pixbuf.rs:305-312 | writes to two non-overlapping pixels can be done in either order |
| Pixbuf.Pixbuf.constructor | gdk-pixbuf/src/pixbuf.rs:58-70 | a pixbuf over an accepted buffer records its geometry and shares the buffer |
| Pixbuf.Pixbuf.PutPixel | gdk-pixbuf/src/pixbuf.rs:288-314 | `put_pixel` panics unless the pixel is inside the image and there are 3 or 4 channels; otherwise the pixel lies inside the buffer and exactly its bytes are overwritten |
| Pixbuf.FromMutSlice | gdk-pixbuf/src/pixbuf.rs:19-71 | a pixbuf over the very buffer passed in is returned exactly when the geometry checks pass, with that geometry and the channel count alpha implies |
| PropertiesMacro.ParsePropAttr | glib-macros/src/properties.rs:103-155 | the hand-written access flags `readwrite`, `read_only` and `write_only` are refused |
| PropertiesMacro.FoldGetIsLast | glib-macros/src/properties.rs:168-200 | there is a getter exactly when some attribute is `get`, and the last `get` decides it |
| PropertiesMacro.Receive | glib-macros/src/properties.rs:168-183 | the attributes are accepted exactly when at least one is `get` or `set`, and then give the folded settings |
| PropertiesMacro.FoldSetPresent | glib-macros/src/properties.rs:168-200 | there is a setter exactly when some attribute is `set` |
| PropertiesMacro.Describe | glib-macros/src/properties.rs:216-254 | the name defaults to the field name trimmed of `_` with `_` turned into `-`, the type defaults to the field's type, and the accessors and builder fields pass through |
| PropertiesMacro.ParseAttrList | glib-macros/src/properties.rs:425-428 | an attribute list parses exactly when every attribute does, keeping one parsed attribute per written one |
| PropertiesMacro.FieldProps | glib-macros/src/properties.rs:412-435 | a field yields one property per `#[property]` attribute |
| PropertiesMacro.ParseFields | glib-macros/src/properties.rs:412-437 | every property `parse_fields` accepts has a getter or a setter |
| PropertiesMacro.FieldPropsAccess | glib-macros/src/properties.rs:172-181 | every property a field yields has a getter or a setter |
| PropertiesMacro.AccessOf | glib-macros/src/properties.rs:264-268 | a property is read-write exactly with getter and setter, read-only with a getter alone and write-only with a setter alone |
| PropertiesMacro.HasSetter | glib-macros/src/properties.rs:455-456 | a public setter is generated only with `set` and never for a `construct_only` property |
| PropertiesMacro.NameToIdent | glib-macros/src/properties.rs:439-441 | the Rust identifier has the name's length and no `-` |
| PropertiesMacro.DefaultNameToIdent | glib-macros/src/properties.rs:233-237 | for a default name, `name_to_ident` gives back the field name trimmed of `_` |
| PropertiesMacro.WrapperMethods | glib-macros/src/properties.rs:443-502 | every property gets `connect_<name>_notify` and `notify_<name>`, and a getter method exactly when it has a getter |
| PropertiesMacro.RemoveDashes | glib-macros/src/properties.rs:515 | the joined segments contain no `-` |
| PropertiesMacro.SegmentCapitalised | glib-macros/src/properties.rs:506-514 | within one segment only its first character is upper-cased |
| PropertiesMacro.NameToEnumIdent | glib-macros/src/properties.rs:504-517 | the in-place walk yields the name with each segment's first character upper-cased and the `-`s dropped |
| PropertiesMacro.CapitalisedName | glib-macros/src/properties.rs:506-514 | capitalising keeps the name's length |
| PropertiesMacro.RemoveDashesConcat | glib-macros/src/properties.rs:515 | dropping `-`s distributes over concatenation |
| PropertiesMacro.RemoveDashesNone | glib-macros/src/properties.rs:515 | a name without `-` is unchanged |
| PropertiesMacro.CapitalisedOneSegment | glib-macros/src/properties.rs:506-514 | a name without `-` is one segment whose first character alone is upper-cased |
| PropertiesMacro.CapitalisedAtFirst | glib-macros/src/properties.rs:506-514 | capitalising splits at the first `-` into independent segments |
| PropertiesMacro.EnumIdentIsJoinedSegments | glib-macros/src/properties.rs:504-517 | the enum identifier is the name split at `-`, each piece capitalised, concatenated |
| PropertiesMacro.TryFromIndex | glib-macros/src/properties.rs:537-546 | an index below the property count names that property; any other index is returned as the error |
| PropertiesMacro.HandlerFor | glib-macros/src/properties.rs:340-351 | GObject id `id` reaches property `id - 1`; an id past the last property panics with "missing handler"; an id of 0 also panics: `id - 1` on a `usize` overflows, which a debug build reports as "attempt to subtract with overflow" and a release build wraps to a huge id that reaches "missing handler" |
| PropertiesMacro.HandlerMatchesInstallOrder | glib-macros/src/properties.rs:298-351 | the id GObject gives the k-th installed param spec reaches the k-th property, the same position `notify_*` indexes |
| SharedBoxed.RefcountedType | glib-macros/src/shared_boxed_derive.rs:71-88 | the refcounted type is found exactly for a struct with one unnamed field whose type is a path, and is that path |
| SharedBoxed.ImplSharedBoxed | glib-macros/src/shared_boxed_derive.rs:104-133 | the derive aborts exactly when there is no refcounted type; otherwise it uses that type and the given name, keeps the attribute errors, and `nullable` alone selects the `None`-admitting checker and `ToValueOptional` |
| SharedBoxed.RefcountedInverse | glib-macros/src/shared_boxed_derive.rs:143-151 | `from_refcounted` and `into_refcounted` are inverse (about `SharedBoxed.FromRefcounted` and `SharedBoxed.IntoRefcounted`, shared_boxed_derive.rs:143-151) |
| SharedBoxed.ToValueOptional | glib-macros/src/shared_boxed_derive.rs:13-31 | the value has the shared type and holds a null pointer exactly for `None` |
| SharedBoxed.ValueRoundTrip | glib-macros/src/shared_boxed_derive.rs:13-187 | a shared value put into a `GValue` (directly or as `Some`) reads back unchanged (about `SharedBoxed.ToValue`, shared_boxed_derive.rs:177-187, and `SharedBoxed.FromValue`, shared_boxed_derive.rs:45-70) |
| SharedBoxed.StaticSharedType.constructor | glib-macros/src/shared_boxed_derive.rs:157-158 | the `Once` starts not run and the stored type invalid |
| SharedBoxed.StaticSharedType.StaticType | glib-macros/src/shared_boxed_derive.rs:154-169 | the first call registers the type and stores it; every later call returns the stored type without registering again |
| Action.Offset | gio/src/subclass/action.rs:220-227 | each of the five properties sits at a distinct offset below 5 from the first id |
| Action.FromId | gio/src/subclass/action.rs:231-240 | a property is found exactly for ids from the first id up to four past it, and it is the one whose offset is `id - first_prop` |
| Action.FromIdOffset | gio/src/subclass/action.rs:231-240 | `from_id` inverts the offsets: every property is found again at its own id |
| Action.FirstPropOf | gio/src/subclass/action.rs:207-219 | the first id recorded on the type or else on its nearest recorded ancestor; nothing when no type on the chain has a record |
| Action.InheritsParentRecord | gio/src/subclass/action.rs:242-250 | a type with no record of its own resolves its ids as its parent does |
| Action.ActionTypes.InterfaceInit | gio/src/subclass/action.rs:253-306 | records one past the class's property count as the first id and overrides the five named properties at that id and the four after it; records of other types are untouched |
| Action.ActionTypes.FromType | gio/src/subclass/action.rs:242-250 | the loop up the parent chain decodes the id against the nearest record, and yields nothing when the chain ends first |
| Action.InitThenLookup | gio/src/subclass/action.rs:242-306 | after `interface_init`, each of the five overridden ids decodes to the property overridden there, on the type and on a subclass without its own record |
| Action.DelegateGetProperty | gio/src/subclass/action.rs:165-179 | a value is produced exactly when the id denotes one of the five properties on the object's type, and it is that property's value |
| Action.DelegateSetProperty | gio/src/subclass/action.rs:181-188 | a property write is never handled by the delegate |
| Application.StrvLen | gio/src/subclass/application.rs:30 | the length `g_strv_length` reports: every cell before it holds a string and the cell at it, if any, is the NULL terminator |
| Application.Strv | gio/src/subclass/application.rs:18 | the strings read from a vector are exactly its cells before the terminator, in order |
| Application.StrvShiftOut | gio/src/subclass/application.rs:28-43 | shifting the raw cells down over the removed one keeps the vector NULL-terminated and removes exactly item `idx` from the strings it denotes |
| Application.StrvLenAt | gio/src/subclass/application.rs:30 | a vector whose first NULL is at `k` has length `k` |
| Application.ArgumentList.constructor | gio/src/subclass/application.rs:16-21 | the item list starts as the strings of the raw vector |
| Application.ArgumentList.Refresh | gio/src/subclass/application.rs:23-25 | the item list is re-read from the raw vector and is back in step with it |
| Application.ArgumentList.Remove | gio/src/subclass/application.rs:28-43 | panics (nothing changed) unless the vector's length equals the item count and `idx` is in range; otherwise item `idx` is gone from both the list and the raw vector, and the two stay in step |
| Application.ParentLocalCommandLine | gio/src/subclass/application.rs:182-203 | `FALSE` from the parent means keep processing (nothing), anything else the exit status it wrote |
| Application.LocalCommandLineTrampoline | gio/src/subclass/application.rs:336-354 | an answer becomes `TRUE` with the exit status written; no answer becomes `FALSE` with the status untouched |
| Application.LocalCommandLineRoundTrip | gio/src/subclass/application.rs:182-203 | with the trampoline of application.rs lines 336-354, chaining up through the trampoline returns the subclass's own answer: the two translations are inverse |
| Application.ParentHandleLocalOptions | gio/src/subclass/application.rs:265-281 | the parent's answer, or -1 (continue the default handling) when the parent class has no handler |
| WriteOutputStream.FirstAnswer | gio/src/write_output_stream.rs:67-72 | the attempt whose answer is reported is the first one that is not `Interrupted`; every earlier attempt was interrupted |
| WriteOutputStream.DriveOutcome | gio/src/write_output_stream.rs:284-304 | a writer that panicked before answers "Panicked before" and stays panicked; a working writer becomes panicked exactly when the answering attempt panics and is otherwise unchanged; the call succeeds exactly on a returned answer, with its value |
| WriteOutputStream.Retry | gio/src/write_output_stream.rs:67-72 | the retry loop ends in the writer state and the result that `DriveOutcome` describes |
| WriteOutputStream.WriteOutputStream.constructor | gio/src/write_output_stream.rs:192-213 | a new stream holds the working writer, seekable exactly for `new_seekable` |
| WriteOutputStream.WriteOutputStream.Write | gio/src/write_output_stream.rs:49-73 | a closed stream fails with `Closed` and stays closed; otherwise the result and the writer's new state are those of the retry loop, and seekability is kept |
| WriteOutputStream.WriteOutputStream.Flush | gio/src/write_output_stream.rs:75-98 | as for `write`: `Closed` on a closed stream, otherwise the retry loop's result and writer state |
| WriteOutputStream.WriteOutputStream.Close | gio/src/write_output_stream.rs:100-107 | closing drops the writer and succeeds in every state |
| WriteOutputStream.WriteOutputStream.Tell | gio/src/write_output_stream.rs:111-121 | the position is always reported unknown (-1) |
| WriteOutputStream.WriteOutputStream.CanSeek | gio/src/write_output_stream.rs:123-126 | seeking is possible exactly when the stream is open over a seekable writer |
| WriteOutputStream.WriteOutputStream.Seek | gio/src/write_output_stream.rs:128-168 | `NotSupported` unless seekable; `InvalidArgument` for a negative absolute offset; a panic for an unknown seek type; otherwise the retry loop's outcome without the new position, the writer state updated |
| WriteOutputStream.WriteOutputStream.CanTruncate | gio/src/write_output_stream.rs:170-172 | truncation is never possible |
| WriteOutputStream.WriteOutputStream.Truncate | gio/src/write_output_stream.rs:174-184 | truncation always fails with `NotSupported` |
| WriteOutputStream.WriteOutputStream.CloseAndTake | gio/src/write_output_stream.rs:215-233 | the stream ends closed; the writer is handed back exactly when the stream was open over a writer that never panicked; otherwise it panics |
| WriteOutputStream.CloseTwice | gio/src/write_output_stream.rs:100-107 | closing twice succeeds both times and leaves the stream closed |
| WriteOutputStream.WriteThenTake | gio/src/write_output_stream.rs:328-342 | ten bytes written to a fresh stream are accepted in full, and `close_and_take` then returns the writer |
| FileEnumerator.NextFileTrampoline | gio/src/subclass/file_enumerator.rs:281-301 | the C `next_file` slot returns the implementation's file info (or NULL at the end); on failure it returns NULL and writes the error exactly when the caller gave an error location |
| FileEnumerator.ParentNextFile | gio/src/subclass/file_enumerator.rs:48-75 | chaining up to `next_file` yields the parent's error when one was set, otherwise its (possibly absent) file info |
| FileEnumerator.NextFileRoundTrip | gio/src/subclass/file_enumerator.rs:48-75 | a Rust parent's `next_file` result, passed through its trampoline and read back by `parent_next_file`, is returned unchanged |
| FileEnumerator.CloseTrampoline | gio/src/subclass/file_enumerator.rs:303-323 | the C `close_fn` slot returns TRUE exactly on success and carries the error exactly on failure with an error location |
| FileEnumerator.ParentClose | gio/src/subclass/file_enumerator.rs:77-102 | `parent_close` panics (debug assertion) exactly when FALSE and an error disagree; otherwise it succeeds exactly on TRUE and returns the parent's error on FALSE |
| FileEnumerator.CloseRoundTrip | gio/src/subclass/file_enumerator.rs:77-102 | a Rust parent's `close` result survives the trampoline and `parent_close` unchanged and never trips the assertion |
| FileEnumerator.ChildEnumerator.constructor | gio/src/subclass/file/tests.rs:1170-1174 | a new enumerator is open at the first child |
| FileEnumerator.ChildEnumerator.NextFile | gio/src/subclass/file/tests.rs:1038-1055 | a closed enumerator fails with `Closed`; an open one yields the next child and advances, and at the end yields nothing without advancing |
| FileEnumerator.ChildEnumerator.Close | gio/src/subclass/file/tests.rs:1057-1060 | closing always succeeds and leaves the enumerator closed (index -1), in this fixture and in the one at gio/src/subclass/file_enumerator.rs:459-463 |
| FileEnumerator.Drain | gio/src/subclass/file_enumerator.rs:472-486 | repeatedly asking for the next file from an open enumerator yields exactly the remaining children, in order, then the end |
| FileEnumerator.TestNames | gio/src/subclass/file_enumerator.rs:448-453 | the fixture's ten files are named `file0` to `file9` |
| FileEnumerator.TestNamesDistinct | gio/src/subclass/file_enumerator.rs:448-453 | the ten fixture names are pairwise distinct |
| FileEnumerator.CloseMidway | gio/src/subclass/file_enumerator.rs:489-515 | reading five files, closing, then reading again yields `file0`..`file4`, a successful close and a `Closed` error |
| FileSubclass.FromParent | gio/src/subclass/file.rs:632-664 | a parent's C answer reads back as the error when one was set, else as the object; a NULL object without error is a panic |
| FileSubclass.Trampoline | gio/src/subclass/file.rs:2628-2655 | an object-returning C slot returns the object on success; on failure NULL, with the error written exactly when there is an error location |
| FileSubclass.ChainUpRoundTrip | gio/src/subclass/file.rs:632-664 | a Rust parent's result, through its trampoline and back through `parent_*`, is returned unchanged |
| FileSubclass.MissingParent | gio/src/subclass/file.rs:609-840 | without a parent function, enumerate/query info/query filesystem info fail with `NotSupported`, find_enclosing_mount fails with `NotFound`, the two attribute-list queries answer an empty list, and monitor_file, set_display_name and child_for_display_name panic (`monitor_file` at file.rs:1671-1687) |
| FileSubclass.ParentList | gio/src/subclass/file.rs:790-840 | a list-returning `parent_*` call gives the parent's answer when the function exists, otherwise the operation's fallback (an empty list, an error or a panic) |
| FileSubclass.ParentObject | gio/src/subclass/file.rs:632-760 | an object-returning `parent_*` call gives the parent's answer when the function exists, otherwise the fallback error or a panic, never an empty answer |
| FileSubclass.ParentQueryExists | gio/src/subclass/file.rs:2276-2294 | `parent_query_exists` is the parent's answer, or else true exactly when querying `standard::type` succeeds |
| FileSubclass.ParentMountMountableFinish | gio/src/subclass/file.rs:1340-1366 | without a parent function the result of a `Task<File>` is propagated; any other async result panics |
| FileSubclass.WithOperationTarget | gio/src/subclass/file.rs:1965-2017 | the `*_with_operation` calls go to the parent's function exactly when it has one, otherwise to the object's own plain operation |
| FileSubclass.ParentWithOperationFinish | gio/src/subclass/file.rs:2019-2045 | the `*_with_operation_finish` calls succeed exactly when the parent set no error and return that error otherwise; without a parent function they answer as the object's own `*_finish` |
| FileSubclass.DisplayNameTrampoline | gio/src/subclass/file.rs:2589-2625 | a display name that is not a valid file name is refused with `InvalidFilename` before the implementation is asked; otherwise the implementation's result goes through the usual trampoline |
| MyFileFixture.StateToByte | gio/src/subclass/file/tests.rs:74-83 | every state is stored as a byte in 0..3 |
| MyFileFixture.StateFromByte | gio/src/subclass/file/tests.rs:63-73 | only bytes 1, 2 and 3 decode to a state other than `DoesNotExist` |
| MyFileFixture.StateRoundTrip | gio/src/subclass/file/tests.rs:63-83 | decoding an encoded state gives the state back |
| MyFileFixture.ByteRoundTrip | gio/src/subclass/file/tests.rs:63-83 | encoding a decoded byte gives the byte back on 0..3 and 0 elsewhere |
| MyFileFixture.SplitEntry | gio/src/subclass/file/tests.rs:264 | an extended-attribute entry splits at its first `=` into a key without `=` and the rest, or is all key |
| MyFileFixture.Classify | gio/src/subclass/file/tests.rs:239-249 | an attribute is supported exactly when it is `*`, `standard::*`, `standard::name` or starts with `xattr::` |
| MyFileFixture.Request | gio/src/subclass/file/tests.rs:237-253 | an attribute list is accepted exactly when every attribute is supported, keeps one entry per attribute, and otherwise reports an unsupported attribute from the list |
| MyFileFixture.EntryContainsKey | gio/src/subclass/file/tests.rs:262-267 | every stored entry contains its own key, so the `contains(key)` test always passes |
| MyFileFixture.XattrFilterKeepsAll | gio/src/subclass/file/tests.rs:261-268 | the reported extended attributes are the same whether or not `xattr::*` was requested |
| MyFileFixture.TransferAllowed | gio/src/subclass/file/tests.rs:484-515 | a copy or move goes ahead exactly when the source exists, overwriting is allowed where needed, no directory is overwritten by a file, and a directory source only lands on an existing non-directory, non-regular destination (about `MyFileFixture.TransferRule`, tests.rs:484-515) |
| MyFileFixture.TransferRuleOrder | gio/src/subclass/file/tests.rs:491-498 | a missing source is reported before anything else, and an existing destination without overwrite is `Exists` (about `MyFileFixture.TransferRule`) |
| MyFileFixture.MyFile.constructor | gio/src/subclass/file/tests.rs:1093-1122 | a new file has the given path, extended attributes, children, type and state |
| MyFileFixture.MyFile.Delete | gio/src/subclass/file/tests.rs:423-430 | an existing file becomes deleted; any other fails with `NotFound` and is unchanged |
| MyFileFixture.MyFile.Trash | gio/src/subclass/file/tests.rs:432-439 | an existing file becomes trashed; any other fails with `NotFound` and is unchanged |
| MyFileFixture.MyFile.Make | gio/src/subclass/file/tests.rs:441-463 | making a directory or symbolic link fails with `Exists` on an existing file and otherwise makes it exist with the new type |
| MyFileFixture.MyFile.EnumerateChildren | gio/src/subclass/file/tests.rs:210-228 | a non-directory fails with `NotDirectory`, a missing directory with `NotFound`; otherwise a fresh enumerator over the children, open at the start |
| MyFileFixture.MyFile.MonitorFile | gio/src/subclass/file/tests.rs:754-770 | monitoring succeeds exactly for an existing regular file; a non-file fails with `NotRegularFile` first, a missing file with `NotFound` |
| MyFileFixture.MyFile.QueryInfo | gio/src/subclass/file/tests.rs:230-271 | an unsupported attribute fails with `InvalidArgument`; otherwise the name is reported when asked and the stored extended attributes when any was asked |
| MyFileFixture.RequestPrefixErr | gio/src/subclass/file/tests.rs:239-248 | the first unsupported attribute stops the scan: whatever follows it does not change the answer |
| MyFileFixture.CopyOrMove | gio/src/subclass/file/tests.rs:465-534 | when the transfer rule allows it, progress 0..90 of 100 is reported to a callback and the destination exists with the source's type; otherwise the rule's error and nothing changes |
| CloneMacro.TokenCursor.constructor | glib-macros/src/clone.rs:31-41 | the cursor starts at the first token |
| CloneMacro.TokenCursor.Peek | glib-macros/src/clone.rs:55-57 | the next token, present exactly when tokens remain |
| CloneMacro.TokenCursor.Next | glib-macros/src/clone.rs:46-52 | takes the token `peek` shows, and moves past it only when there was one |
| CloneMacro.Words | glib-macros/src/clone.rs:363-395 | by the keyword grammar: no word exactly when no token is taken |
| CloneMacro.WordsAreIdents | glib-macros/src/clone.rs:363-395 | every word of a keyword is one of its identifier tokens |
| CloneMacro.KindNamed | glib-macros/src/clone.rs:396-420 | a borrow kind is named exactly by `strong`, `weak`, `weak-allow-none` and `to-owned`; everything else is an error |
| CloneMacro.Keyword | glib-macros/src/clone.rs:363-420 | the loop consumes exactly the keyword's tokens and answers the kind its joined words name |
| CloneMacro.KeywordAt | glib-macros/src/clone.rs:427 | an accepted keyword takes at least one token and stops within the input |
| CloneMacro.KeywordExample | glib-macros/src/clone.rs:363-395 | the tokens `weak - allow - none` make `weak-allow-none` |
| CloneMacro.KeywordSplitsBack | glib-macros/src/clone.rs:363-395 | splitting a keyword at `-` gives back the identifiers it was read from |
| CloneMacro.PathStep | glib-macros/src/clone.rs:306-346 | one turn of the loop follows the path grammar: `.` only after an identifier, an identifier only after `.` or at the start |
| CloneMacro.FullIdent | glib-macros/src/clone.rs:300-360 | the loop answers, and stops where, the path grammar `FullIdentAt` says; it succeeds exactly on a well-formed dotted path ended by `,` or `=`, consumes exactly the path, and returns its non-empty text |
| CloneMacro.FullIdentAtWalk | glib-macros/src/clone.rs:300-360 | the path grammar succeeds exactly on a well-formed dotted path, ends after exactly its tokens, and yields the text of those tokens |
| CloneMacro.ParseIdent | glib-macros/src/clone.rs:423-475 | answers, and leaves the cursor where, `ParseIdentAt` says: the kind the keyword names, the name that is the text of the path tokens after it, the alias an `as` gives, and the errors for a name ending in `.`, a bare `self` and an unaliased field access |
| CloneMacro.PathCapture | glib-macros/src/clone.rs:428-474 | reads the path and its checks as `PathAt` says; an accepted capture is named by the text of the path tokens |
| CloneMacro.Named | glib-macros/src/clone.rs:430-474 | after the path, answers as `NamedAt` says: a name ending in `.` is refused, an alias is read, a bare `self` or field access without alias is refused |
| CloneMacro.NamedAt | glib-macros/src/clone.rs:440-474 | an accepted capture keeps the path's name and the keyword's kind, its name does not end with `.`, and it has an alias whenever the name is `self` or dotted |
| CloneMacro.AliasAt | glib-macros/src/clone.rs:440-458 | an alias is read exactly when `as` and an identifier follow, taking exactly those two tokens; a lone `as` or another identifier is an error |
| CloneMacro.ToStrBefore | glib-macros/src/clone.rs:144-175 | binds the alias, or the name, to a copy of the named value; exactly the weak kinds downgrade |
| CloneMacro.ToStrAfter | glib-macros/src/clone.rs:177-240 | emits nothing exactly for strong and to-owned captures |
| CloneMacro.UpgradesMatchDowngrades | glib-macros/src/clone.rs:144-240 | every upgrade inside the closure is of exactly the weak reference bound outside it, under the same name |
| CloneMacro.GroupToString | glib-macros/src/clone.rs:505-512 | a group renders as its delimiters around the rendering of its tokens |
| CloneMacro.TokensToString | glib-macros/src/clone.rs:774-801 | the loop with its flag builds the rendering the recursive definition gives |
| CloneMacro.TokenToString | glib-macros/src/clone.rs:785-798 | one turn: punctuation and groups clear the flag, identifiers and literals put a space after an ident-like token and set it |
| CloneMacro.RenderFlatHead | glib-macros/src/clone.rs:774-801 | a leading token that is not a group renders with a space only after an ident-like token |
| CloneMacro.SpacesOnlyBetweenIdents | glib-macros/src/clone.rs:774-801 | the rendering inserts exactly one space per adjacent pair of ident-like tokens |
| CloneMacro.RenderIsTextsAndSpaces | glib-macros/src/clone.rs:774-801 | with the spaces taken out, the rendering is the tokens' texts side by side |
| CloneMacro.ScanStopsAtEnd | glib-macros/src/clone.rs:537-565 | where the value ends, the tokens passed over are balanced, the text is exactly theirs, and the stopping token, at depth 0, is a `,` or an identifier or literal that does not continue a `::` path |
| CloneMacro.ScanNoEnd | glib-macros/src/clone.rs:537-565 | a scan that runs out of tokens has passed no token that could end the value |
| CloneMacro.UnexpectedEnd | glib-macros/src/clone.rs:559-562 | the evidently intended error message quotes the value collected so far |
| CloneMacro.UnexpectedEndIgnoresValue | glib-macros/src/clone.rs:559-562 | the message as written is one string whatever the value, while the intended ones differ (about `CloneMacro.UnexpectedEndAsWritten`, the literal of clone.rs:559-562) |
| CloneMacro.ExprRest | glib-macros/src/clone.rs:537-565 | (corrected message) the loop answers what `ExprRestAt` says: it succeeds exactly when the scan finds the end, stops at it without taking it, and returns the text collected; running out of tokens gives the message quoting that text |
| CloneMacro.TextFromPieces | glib-macros/src/clone.rs:537-565 | the text the loop accumulates is the text collected so far followed by the pieces of the remaining tokens |
| CloneMacro.Expr | glib-macros/src/clone.rs:515-566 | answers, and leaves the cursor where, `ExprAt` says: at the end of input an error; a group is the whole value; punctuation other than an opening bracket is an error; anything else continues as `ExprRest` |
| CloneInner.CheckAtMatches | glib-macros/src/clone.rs:279-298 | `check_tokens` succeeds exactly when the input continues with the expected tokens, and then takes exactly them |
| CloneInner.CheckTokens | glib-macros/src/clone.rs:279-298 | the loop answers, and takes, what `CheckAt` says: the first mismatch with the text matched so far, or the end |
| CloneInner.ReturnKindAt | glib-macros/src/clone.rs:569-602 | a fail action is read only after `default` `-` and ends strictly after them |
| CloneInner.ReturnKind | glib-macros/src/clone.rs:569-602 | answers, and takes, what `ReturnKindAt` says: `panic`, or `return` and the value `expr` reads; another word after `default-` is a panic of the macro, another token or the end an error |
| CloneInner.ParseReturnKindShape | glib-macros/src/clone.rs:604-627 | nothing is taken without `@`; a fail action is read exactly from `@` `default` `-` on and ends with the `,` after it |
| CloneInner.ParseReturnKind | glib-macros/src/clone.rs:604-627 | answers, and takes, what `ParseReturnKindAt` says, including the end-of-input error and the two missing-`,` messages |
| CloneInner.ClosureAt | glib-macros/src/clone.rs:759-772 | the parameters are exactly the tokens up to the first `|`, which is taken; it fails exactly when no `|` follows |
| CloneInner.GetClosure | glib-macros/src/clone.rs:759-772 | the loop collects, and takes, what `ClosureAt` says |
| CloneInner.MoveAfterAsyncAt | glib-macros/src/clone.rs:646-668 | it succeeds exactly when `move` comes next, taking it |
| CloneInner.CheckMoveAfterAsync | glib-macros/src/clone.rs:646-668 | answers, and takes, what `MoveAfterAsyncAt` says, with the message naming what came instead |
| CloneInner.AsyncSyntaxAt | glib-macros/src/clone.rs:670-691 | after `async` an accepted block is an async closure or an async block |
| CloneInner.CheckAsyncSyntax | glib-macros/src/clone.rs:670-691 | answers, and takes, what `AsyncSyntaxAt` says: `move`, then a closure between `|`s or a `{ }` block (which is not taken) |
| CloneInner.AfterMoveAt | glib-macros/src/clone.rs:719-757 | after `move` an accepted block is a closure, or a closure wrapping an `async move` block |
| CloneInner.AfterMove | glib-macros/src/clone.rs:719-757 | answers, and takes, what `AfterMoveAt` says, with the messages for a missing closure and a missing block |
| CloneInner.BeforeClosureAt | glib-macros/src/clone.rs:694-757 | a block is accepted only when it starts with `move` or `async` |
| CloneInner.CheckBeforeClosure | glib-macros/src/clone.rs:694-757 | answers, and takes, what `BeforeClosureAt` says, including a misplaced `default-…` and a closure without `move` |
| CloneInner.InnerAt | glib-macros/src/clone.rs:900-936 | the capture list, when accepted, ends with `=>` and extends the captures read before |
| CloneInner.ParseIdentWellFormed | glib-macros/src/clone.rs:423-475 | every capture `parse_ident` accepts has a name not ending in `.` and an alias when it is `self` or dotted |
| CloneInner.InnerAtWellFormed | glib-macros/src/clone.rs:900-936 | every capture the loop collects is well formed |
| CloneInner.Captures | glib-macros/src/clone.rs:900-936 | the loop answers, and takes, what `InnerAt` says: `@` reads a capture, `,` must follow one (a panic otherwise), `=>` ends, and an identifier, another token, `|` or the end are the errors of the source |
| CloneInner.CloneInnerAt | glib-macros/src/clone.rs:895-951 | an accepted input has at least one capture, and its body is the suffix of the input after the block |
| CloneInner.CloneInnerSound | glib-macros/src/clone.rs:895-951 | every capture of an accepted input is well formed |
| CloneInner.CloneInner | glib-macros/src/clone.rs:895-950 | the parse of the macro's input up to `build_closure` is what `CloneInnerAt` says: captures, the no-capture panic, the fail action, then the block |
| CloneInner.CloneInnerErrors | glib-macros/src/clone.rs:900-938 | an empty input, a bare identifier, `=>` with no capture and `|` with no capture fail as the source says |
| CloneBlock.IsSimpleExpr | glib-macros/src/clone_block_attribute.rs:64-79 | the loop that walks down the expression decides exactly the recursive definition of a simple expression |
| CloneBlock.SimpleHasNoOther | glib-macros/src/clone_block_attribute.rs:64-79 | a simple expression is a literal or a path seen through casts, fields, parentheses, references and ascriptions, or an index with both sides simple; nothing else |
| CloneBlock.SetDefaultFail | glib-macros/src/clone_block_attribute.rs:89-95 | only a weak capture with no failure action of its own gets the default; every other capture is unchanged, and no capture changes name or source |
| CloneBlock.DefaultFailSettles | glib-macros/src/clone_block_attribute.rs:89-95 | after a default every weak capture has an action, and a second default changes nothing |
| CloneBlock.SetDefaultFails | glib-macros/src/clone_block_attribute.rs:469-474 | the loop gives every capture, in place and in order, what `set_default_fail` gives it |
| CloneBlock.FirstNamed | glib-macros/src/clone_block_attribute.rs:431-435 | the position of the first attribute with the name, present exactly when one has it |
| CloneBlock.ExtractAttr | glib-macros/src/clone_block_attribute.rs:431-435 | an attribute with the name is taken out exactly when there is one, leaving one fewer attribute; otherwise the attributes are unchanged |
| CloneBlock.CaptureFrom | glib-macros/src/clone_block_attribute.rs:827-904 | a parameter with a capture attribute is removed; the capture has the kind of the attribute and a name or a source expression, or an error says why none was made; each extra attribute is reported |
| CloneBlock.CapturePrecedence | glib-macros/src/clone_block_attribute.rs:817-826 | `#[strong]` wins over `#[weak]`, which wins over `#[watch]`; `#[watch]` is not read in `#[clone]` mode; a parameter without them stays with nothing reported |
| CloneBlock.CapturesWellFormed | glib-macros/src/clone_block_attribute.rs:810-910 | every capture has a name or a source, `#[clone]` makes no watch capture, no parameter left carries `#[strong]` or `#[weak]`, and kept parameters plus captures never outnumber the parameters |
| CloneBlock.ValidateIff | glib-macros/src/clone_block_attribute.rs:780-808 | validation reports nothing exactly when there is at most one watch capture and no capture name repeats a parameter name or an earlier capture's |
| CloneBlock.NothingErrs | glib-macros/src/clone_block_attribute.rs:920-929 | tokens after `#[default_panic]` or `#[default_allow_none]` are reported exactly when there are any |
| CloneBlock.NoDefaultsNoChange | glib-macros/src/clone_block_attribute.rs:912-963 | with no default attribute the attributes, the action and the errors are unchanged |
| CloneBlock.LastArgs | glib-macros/src/clone_block_attribute.rs:930-946 | the arguments of the last attribute with the name, present exactly when one has it |
| CloneBlock.RemoveOther | glib-macros/src/clone_block_attribute.rs:431-435 | taking out an attribute of another name keeps this name's attributes and the last of them |
| CloneBlock.RemoveFirst | glib-macros/src/clone_block_attribute.rs:431-435 | taking out the first of several attributes of a name keeps the last of them |
| CloneBlock.LastReturnWins | glib-macros/src/clone_block_attribute.rs:912-963 | with well-formed `#[default_return]` attributes, the last of them is the action, whatever panic or allow-none attributes there are |
| CloneBlock.AllowNoneWins | glib-macros/src/clone_block_attribute.rs:912-963 | without `#[default_return]`, an allow-none attribute wins over panic ones |
| CloneBlock.PanicWins | glib-macros/src/clone_block_attribute.rs:912-963 | with only `#[default_panic]` attributes the action is to panic |
| CloneBlock.DuplicateReported | glib-macros/src/clone_block_attribute.rs:953-958 | a well-formed default attribute found when an action is already chosen is reported as a duplicate |
| CloneBlock.TwoDefaultsDuplicate | glib-macros/src/clone_block_attribute.rs:912-963 | two well-formed default attributes are always reported as a duplicate, whatever came before |
| CloneBlock.RestIndex | glib-macros/src/clone_block_attribute.rs:484-501 | the first parameter carrying `#[rest]`, or none when none does |
| CloneBlock.RestOf | glib-macros/src/clone_block_attribute.rs:484-509 | without `#[rest]` nothing changes; with it, the attribute is taken off the first parameter that has it, that parameter becomes the last, the ones before are kept, and each one dropped after it is reported once |
| CloneBlock.RequiredArgCount | glib-macros/src/clone_block_attribute.rs:528-535 | one more than the last parameter that is neither `_` nor the `#[rest]` one, or 0, so every parameter at or past it is `_` or the rest one |
| CloneBlock.RequiredCountCoversParams | glib-macros/src/clone_block_attribute.rs:528-546 | every parameter that takes a value lies below the required count, so a call that passes the count check has a value for it |
| CloneBlock.AddDefault | glib-macros/src/clone_block_attribute.rs:469-474 | as applied at clone_block_attribute.rs lines 641-646, each capture gets the default action when one was given, and is kept as it is otherwise |
| CloneBlock.GClosureLocal | glib-macros/src/clone_block_attribute.rs:443-458 | a closure rewritten for a `#[watch]` parameter alone is local; with `#[closure]` it is local exactly with `local` |
| CloneBlock.GClosureClean | glib-macros/src/clone_block_attribute.rs:443-509 | a rewrite that reports nothing is `move` or captures nothing, has at most one watch and no repeated name, and its `#[rest]` parameter is the last with nothing dropped |
| CloneBlock.CloneClosureNeedsMove | glib-macros/src/clone_block_attribute.rs:619-646 | `#[clone]` on a closure that is not `move` is always reported, even with nothing captured; a clean rewrite keeps the parameters and repeats no name |
| CloneBlock.Visitor.GetCaptures | glib-macros/src/clone_block_attribute.rs:810-910 | the loop leaves the kept parameters, the captures in order and the errors that the capture walk defines |
| CloneBlock.Visitor.CaptureTurn | glib-macros/src/clone_block_attribute.rs:813-906 | one turn of the loop advances the capture walk by one parameter |
| CloneBlock.Visitor.ValidateCaptures | glib-macros/src/clone_block_attribute.rs:780-808 | the errors appended are those of the duplicate check over the parameters' names and the captures |
| CloneBlock.Visitor.CheckTurn | glib-macros/src/clone_block_attribute.rs:786-806 | one turn checks one capture: a second watch and a taken name are reported, a new name is recorded |
| CloneBlock.Visitor.ExtractDefaultFailAction | glib-macros/src/clone_block_attribute.rs:912-963 | the attributes left, the action chosen and the errors appended are those the default-action definition gives |
| CloneBlock.Visitor.DefaultTurn | glib-macros/src/clone_block_attribute.rs:917-962 | one turn takes one default attribute, or stops when none is left |
| CloneBlock.Visitor.HandleRest | glib-macros/src/clone_block_attribute.rs:484-509 | the parameters and errors after the `#[rest]` handling are those `RestOf` defines |
| CloneBlock.Visitor.TakeRest | glib-macros/src/clone_block_attribute.rs:487-508 | `#[rest]` comes off its parameter, stray tokens on it are reported, and the parameters after it are dropped with one error each |
| CloneBlock.Visitor.DropPastRest | glib-macros/src/clone_block_attribute.rs:502-508 | the parameters after the rest one are removed, each reported once |
| CloneBlock.Visitor.CreateGClosure | glib-macros/src/clone_block_attribute.rs:443-509 | the rewrite plan and errors of `#[closure]` are those the pure definition gives, nothing when the closure has neither `#[closure]` nor a `#[watch]` parameter |
| CloneBlock.Visitor.FinishGClosure | glib-macros/src/clone_block_attribute.rs:469-509 | the rest of the rewrite once captures and default action are known |
| CloneBlock.Visitor.CreateClosure | glib-macros/src/clone_block_attribute.rs:619-646 | the rewrite plan and errors of `#[clone]` are those the pure definition gives, nothing when the closure has neither `#[clone]` nor a capture attribute |
| CloneBlock.Visitor.FinishClosure | glib-macros/src/clone_block_attribute.rs:634-646 | the rest of the rewrite once the captures are known |
| CloneBlock.CollectNames | glib-macros/src/clone_block_attribute.rs:782-785 | the loop collects the names every parameter pattern binds |
| CloneBlock.FindRest | glib-macros/src/clone_block_attribute.rs:484-501 | the loop finds the first parameter with `#[rest]` |
| CloneBlock.AnyAttr | glib-macros/src/clone_block_attribute.rs:445-448 | whether some parameter carries the attribute |
| SignalsMacro.ParseSignalsArgs | glib-macros/src/signals.rs:18-44 | the arguments are accepted only with some `wrapper_type = T`, and the type kept is one that was written; without any `wrapper_type` they are refused |
| SignalsMacro.FlagNamed | glib-macros/src/signals.rs:87-104 | `name` and `accumulator` are not flags |
| SignalsMacro.ParseSignalArg | glib-macros/src/signals.rs:80-112 | an argument is accepted exactly when it is `name` or `accumulator` with a value, or one of the nine bare flags |
| SignalsMacro.ParseSignalArgs | glib-macros/src/signals.rs:118-124 | a list is accepted exactly when every argument is, one parsed argument per written one |
| SignalsMacro.ParseSignalAttr | glib-macros/src/signals.rs:382-403 | `#[signal]` has no arguments and `#[signal = v]` is an invalid attribute |
| SignalsMacro.NonSignalOnly | glib-macros/src/signals.rs:405-423 | what remains are attributes of the input that are not `#[signal]` |
| SignalsMacro.CollectNoneIffNoSignal | glib-macros/src/signals.rs:405-423 | the gathered arguments are absent exactly when no attribute is `#[signal]` |
| SignalsMacro.NonSignalKeepsAll | glib-macros/src/signals.rs:405-423 | without `#[signal]` attributes nothing is removed |
| SignalsMacro.CollectErrFrom | glib-macros/src/signals.rs:416 | once a `#[signal]` attribute fails to parse, later attributes do not matter |
| SignalsMacro.AttrStep | glib-macros/src/signals.rs:409-420 | one step of the walk either keeps a non-signal attribute or removes a signal one and appends its arguments |
| SignalsMacro.ParseSignalAttrs | glib-macros/src/signals.rs:405-423 | the in-place walk with `remove(idx)` gives the gathered arguments and leaves exactly the non-signal attributes, in order |
| SignalsMacro.ParamTypes | glib-macros/src/signals.rs:172-180 | there are at most as many parameter types as inputs |
| SignalsMacro.ParamTypesAfterSelf | glib-macros/src/signals.rs:172-180 | after `&self`, the parameter types are the typed inputs' types one for one |
| SignalsMacro.AllTyped | glib-macros/src/signals.rs:172-180 | with only typed inputs, every input contributes its type in order |
| SignalsMacro.AddArg | glib-macros/src/signals.rs:216-271 | `name` may be repeated and the last wins; a flag is accepted exactly when not yet given and is then added |
| SignalsMacro.AddArgs | glib-macros/src/signals.rs:216-271 | the only error while adding arguments is "duplicate argument" |
| SignalsMacro.AddArgsSnoc | glib-macros/src/signals.rs:216-271 | adding one more argument continues from the earlier result |
| SignalsMacro.AddArgsAccepts | glib-macros/src/signals.rs:216-271 | the arguments are accepted exactly when no flag and no accumulator repeats; the builder then holds every flag, the last name and the accumulator if given |
| SignalsMacro.UnitHandlerAsWritten | glib-macros/src/signals.rs:322-330 | as written, a class handler of a unit-returning method converts from no type at all (about `SignalsMacro.ReturnWrapperAsWritten`, signals.rs:322-330) |
| SignalsMacro.ReturnWrapperFor | glib-macros/src/signals.rs:322-330 | the corrected wrapper converts the declared return type, or gives `None` for a unit return |
| SignalsMacro.EmittedFlags | glib-macros/src/signals.rs:353-376 | the builder calls emitted are exactly the flags given |
| SignalsMacro.AllFlagsListed | glib-macros/src/signals.rs:368-375 | the emission order lists every flag |
| SignalsMacro.Pick | glib-macros/src/signals.rs:353-375 | the emitted calls are the flags of the order that were given |
| SignalsMacro.SignalExprOf | glib-macros/src/signals.rs:273-378 | the signal is named by `name` or the method name made dashed, gets `param_types` only with parameters, a class handler only for a method with a body, exactly the given flags, and (corrected) the accumulator given |
| SignalsMacro.AccumulatorDroppedAsWritten | glib-macros/src/signals.rs:258-259 | as written, `accumulator = f` is accepted and then missing from the generated signal, which the corrected expression keeps (about `SignalsMacro.SignalExprAsWritten`, the expression of signals.rs:361-376 as written) |
| SignalsMacro.SignalBuilder.constructor | glib-macros/src/signals.rs:148-213 | a new builder records the method's name, typed inputs and return type, has a class handler exactly for a method with a body, and starts with no settings |
| SignalsMacro.SignalBuilder.AddArgument | glib-macros/src/signals.rs:216-271 | `add_arg` succeeds exactly when the specification does, and only then changes the settings |
| SignalsMacro.SignalBuilder.Expr | glib-macros/src/signals.rs:273-378 | the builder's expression is the corrected signal expression of its settings |
| SignalsMacro.NewBuilder | glib-macros/src/signals.rs:148-213 | a builder is made exactly for a method taking `&self` whose arguments do not repeat; the error says which check failed |
| SignalsMacro.AddArgsFailStays | glib-macros/src/signals.rs:216-271 | once an argument fails, later ones do not matter |
| SignalsMacro.ItemAfter | glib-macros/src/signals.rs:436-443 | an emitted method keeps no `#[signal]` attribute |
| SignalsMacro.NoSignalAttrsNoSignals | glib-macros/src/signals.rs:425-454 | an `impl` block without `#[signal]` yields no signal and is emitted unchanged |
| SignalsMacro.NoSignalCollectsNone | glib-macros/src/signals.rs:405-423 | attributes without `#[signal]` gather no arguments |
| SignalsMacro.SignalsErrFrom | glib-macros/src/signals.rs:425-454 | once an item fails, later items do not matter |
| SignalsMacro.ParseItem | glib-macros/src/signals.rs:432-451 | one loop step yields the item's signal and rewrites the item as specified |
| SignalsMacro.ParseSignals | glib-macros/src/signals.rs:425-454 | (corrected expressions) the in-place loop yields the specified signals and leaves every item rewritten as specified |
| VariantDerive.ImplVariant | glib-macros/src/variant_derive.rs:9-21 | only a struct is derived, with its fields; an enum or a union stops the macro with its own panic message |
| VariantDerive.StaticVariantType | glib-macros/src/variant_derive.rs:40-61 | a struct's type string is `(`, each field's type string in declaration order, then `)`; a unit struct has the unit type `()` |
| VariantDerive.UnitIsEmptyTuple | glib-macros/src/variant_derive.rs:167-174 | the unit struct's type is the same as that of a struct with no fields, GLib's empty tuple `()` |
| VariantDerive.StaticTypeIsValid | glib-macros/src/variant_derive.rs:45-55 | when every field type is valid the built tuple type string is valid, so the `unwrap` on it never panics |
| VariantDerive.ToVariantType | glib-macros/src/variant_derive.rs:63-73 | the derived value is a tuple container whose children are the field values in order and whose type is the derived static type (about `VariantDerive.ToVariant`, variant_derive.rs:63-73) |
| VariantDerive.ReadFieldsIff | glib-macros/src/variant_derive.rs:81-88 | reading fields from position `i` on succeeds exactly when each such child exists with its field's type, and then yields exactly those children |
| VariantDerive.FromVariantIff | glib-macros/src/variant_derive.rs:75-91 | `from_variant` succeeds exactly for a container whose first children have the fields' types, giving field k as child k; the container's own type and any extra children are not checked (about `VariantDerive.FromVariant`, variant_derive.rs:75-91) |
| VariantDerive.UnitAlwaysReads | glib-macros/src/variant_derive.rs:184-190 | a unit struct is read back from any variant, container or not |
| VariantDerive.RoundTrip | glib-macros/src/variant_derive.rs:63-163 | `from_variant(to_variant(s))` gives back the fields of `s`, for tuple and named structs alike |
| EnumDerive.AsI32 | glib-macros/src/enum_derive.rs:52 | `as i32` keeps a discriminant congruent modulo 2^32 within the i32 range, and leaves one already in range unchanged |
| EnumDerive.EntryOf | glib-macros/src/enum_derive.rs:28-57 | a variant whose attribute does not parse gives that compile error; otherwise its entry holds the discriminant `as i32`, and the chosen name and nick, each NUL-terminated |
| EnumDerive.ValueEntries | glib-macros/src/enum_derive.rs:28-61 | one entry per variant, in declaration order |
| EnumDerive.ParsedCount | glib-macros/src/enum_derive.rs:36-48 | the number of variants whose attribute parses is at most the number of variants |
| EnumDerive.ParsedCountFull | glib-macros/src/enum_derive.rs:36-48 | every variant is counted exactly when every attribute parses |
| EnumDerive.GenEnumValues | glib-macros/src/enum_derive.rs:20-64 | the entries are those of the variants, and the size starts at one for the terminator and counts each variant whose attribute parses |
| EnumDerive.TableSize | glib-macros/src/enum_derive.rs:99-109 | the declared array size matches the table exactly when every attribute parses; the table ends in the all-zero terminator and entry k is variant k's value with a NUL-terminated name |
| EnumDerive.ImplEnum | glib-macros/src/enum_derive.rs:66-190 | a non-enum and a missing `#[enum_type]` abort with their messages, a bad attribute is returned as its error, and otherwise the table is built under the given type name; `lazy_registration` defaults to false and the plugin type to `TypeModule` |
| EnumDerive.FindVariant | glib-macros/src/enum_derive.rs:328-338 | the variant found from position `k` on is the first one whose value is the one sought; `None` exactly when no later variant has it |
| EnumDerive.TryFromGlibIff | glib-macros/src/enum_derive.rs:328-348 | `try_from_glib` fails exactly on a value no variant has, returning that value as the error; on success the variant has the value; `from_glib` panics exactly when `try_from_glib` fails (about `EnumDerive.TryFromGlib`, enum_derive.rs:332-338, `EnumDerive.FromGlib`, enum_derive.rs:343-347, and `EnumDerive.IntoGlib`, enum_derive.rs:323-325) |
| EnumDerive.RoundTrip | glib-macros/src/enum_derive.rs:319-348 | with distinct values, a variant converted to its C integer and back is the same variant (about `EnumDerive.IntoGlib` and `EnumDerive.TryFromGlib`) |
| EnumDerive.StaticEnum.constructor | glib-macros/src/enum_derive.rs:98-99 | the `Once` starts incomplete and the stored type invalid |
| EnumDerive.StaticEnum.RegisterEnum | glib-macros/src/enum_derive.rs:93-124 | the first call registers the enum and stores its valid type; later calls return the same type; a NUL in the name or an invalid type panics and poisons the `Once`, so every later call panics too |
| EnumDerive.LazyDynamicEnum.constructor | glib-macros/src/enum_derive.rs:199-201 | the registration status starts empty |
| EnumDerive.LazyDynamicEnum.RegisterEnum | glib-macros/src/enum_derive.rs:204-221 | the new status and the returned type are those of the lazy registration rule `DynamicType.Register` |
| EnumDerive.LazyDynamicEnum.OnImplementationLoad | glib-macros/src/enum_derive.rs:229-249 | the new status and the result are those of `DynamicType.Load` |
| EnumDerive.LazyDynamicEnum.OnImplementationUnload | glib-macros/src/enum_derive.rs:254-268 | the new status and the result are those of `DynamicType.Unload` |
| EnumDerive.DynamicEnum.constructor | glib-macros/src/enum_derive.rs:275-279 | the stored type starts as `G_TYPE_INVALID` |
| EnumDerive.DynamicEnum.RegisterEnum | glib-macros/src/enum_derive.rs:282-285 | eager registration returns the type stored by the last load |
| EnumDerive.DynamicEnum.OnImplementationLoad | glib-macros/src/enum_derive.rs:289-295 | each load stores the type returned by registration and succeeds exactly when it is valid |
| EnumDerive.DynamicEnum.OnImplementationUnload | glib-macros/src/enum_derive.rs:299-302 | unloading always succeeds and unregisters nothing |

## Left out

- Everything that only forwards to C is left out. This covers the generated `auto` bindings, the pointer-ownership machinery (`ToGlibPtr`, `Stash`, `from_glib_full`/`none`/`borrow`), reference counts and the trampoline pointer casts. Their behaviour lives in C libraries.
- GLib's own functions are parameters, because their code is not part of this model: the type system (`g_type_*`, `is_a`, class lookups), signal emission and weak references.
- `PixbufEnums.TablesWellFormed`: the variant names are not proved distinct. Rust refuses an enum that repeats a variant name, and the conversions depend only on positions and codes.
- `CairoEnums.TablesWellFormed1`: the variant names are not proved distinct, for the same reason.
- `CairoEnums.TablesWellFormed2`: the variant names are not proved distinct, for the same reason.
- `CairoEnums.TablesWellFormed3`: the variant names are not proved distinct, for the same reason.
- `CairoEnums.TablesWellFormed4`: the variant names are not proved distinct, for the same reason.
- `CairoEnums.TablesWellFormed5`: the variant names are not proved distinct, for the same reason.
- `CairoError.ErrorTableWellFormed`: the variant names are not proved distinct, for the same reason.
- `VariantType.New`: `g_variant_type_string_scan` is C code. It is modelled by the GVariant type grammar (`ScanOne`/`ScanTuple`), not by GLib's implementation. GLib also rejects types nested deeper than `G_VARIANT_MAX_RECURSION_DEPTH` (128); the model accepts any depth.
- The `*_num_as_vec`/container conversions of glib/src/translate.rs are left out: they copy pointer arrays and transfer ownership.
- Async and concurrent code is left out: futures, `Mutex`/atomic synchronisation of the registration statics, thread guards, and the async `*_async`/`*_finish` families of gio/src/subclass/file.rs beyond the ones modelled. A registration status is one value updated by one caller at a time.
- Floating point is left out (parameter-spec bounds, scaling).
- heck's case conversions are left out. Each enum variant carries its default name and nick already converted.
- syn's parsing and quote's token construction are left out. The macros' inputs arrive parsed (with the parser's error when parsing fails), and their outputs are described by the decisions they encode, not by the emitted tokens.
- `CloneInner`: `build_closure`, the token generation at the end of `clone_inner`, is left out. The parse before it (`CloneInner.CloneInner`) ends in what `build_closure` is given. The generated statement for each capture (`CloneMacro.ToStrBefore`, `CloneMacro.ToStrAfter`) is modelled.
- `CloneInner.CloneInner`: a panic of the macro (an `assert!` in the source) is the `Panic` failure, and spans are not modelled.
- `CloneMacro.ExprRest`: it runs the corrected end-of-input message of the Findings table (the collected value is quoted). The message as written is `CloneMacro.UnexpectedEndAsWritten`.
- `SignalsMacro.SignalBuilder.Expr`: it builds the corrected expression of the Findings table, which passes the accumulator and tests for a return type. The expression as written is shown by `SignalsMacro.AccumulatorDroppedAsWritten` and `SignalsMacro.UnitHandlerAsWritten`.
- `SignalsMacro.ParseSignals`: the signals it yields carry the corrected expressions of `SignalsMacro.SignalExprOf`, not the ones the source emits.
- `CloneBlock`: `visit_expr_mut` is not modelled as a member. For a closure it tries `create_gclosure` first and falls back to `create_closure`; an async expression goes to `create_async`; any other expression is only walked into.
- `CloneBlock`: `create_async` is left out. Spans, and the errors of `attrs_mut` on expressions that carry no attributes, are not modelled.
- `VariantDerive`: glib's `Variant` is a small tree of typed values, and `try_child_get` is taken to succeed exactly when the child exists and has the requested type. glib/src/variant.rs is not part of this model.
- `EnumDerive`, `ObjectSubclass`, `ObjectInterface`: what a plugin registration returns is a parameter. The `upgrade().unwrap()` panic of a plugin weak reference that no longer upgrades is not modelled. The `GValue` and `ParamSpec` plumbing of the generated impls is left out.
- `SharedBoxed`: raw pointers are either null or point at a shared value. The `debug_assert!` that a pointer is non-null is a precondition. The checker's own type test is left out.
- `MyFileFixture`: the extended-attribute filter of `query_info` keeps every attribute, because an entry always contains its own key (`XattrFilterKeepsAll`). This is modelled as written. It is not claimed as a defect, because the intent for a `*` request is unclear.
- `MyFileFixture.CopyOrMove`: the destination and source are always this fixture's own files. The `downcast_ref` fallback for a foreign `File` (asking GIO whether it exists and its type) is not modelled.
- `VariantType`: `Display` writes the type string itself and is not a separate member.
- `WriteOutputStream`: the Rust writer is opaque. What one call does is given by the finite sequence of its attempts' answers, which must contain one that is not `Interrupted`. A writer that is interrupted forever is not modelled.
- `std_error_to_gio_error` maps an I/O error to a GIO error. It lives in gio/src/read_input_stream.rs, which is not part of this model. Interrupted answers are retried, and every other answer is passed through.
- `Application`: `ExitCode` is treated as the `i32` it converts to and from. gio/src/exit_code.rs is not part of this model.
- `Pixbuf.FromMutSlice`: the colorspace is passed to C unchecked and is not modelled.
- `Object.BindingBuilder`: the Rust builder is a consuming value. It is modelled as a class whose methods update its flags and transforms in place. The binding that `build` creates in C is left out.
- `FileEnumerator.ChildEnumerator`: the two test enumerators word their `Closed` error differently, so the message is a constructor parameter.
- Integer widths are modelled where the source depends on them: `as i32` on enum discriminants, u32 source ids and C codes. Elsewhere integers are unbounded and the source's value ranges are stated as preconditions.

## Findings

| source | as written | input that shows it | evidently intended | confidence | as-written member | corrected member |
|---|---|---|---|---|---|---|
| glib-macros/src/signals.rs:258-259 | `add_arg` stores `accumulator = expr`, but `SignalBuilder::expr` (lines 361-376) emits no `.accumulator(...)` call, so the accumulator is dropped | `#[signal(accumulator = f)] fn s(&self) -> i32 { 0 }` | the generated `Signal::builder` chain passes the stored accumulator | not executed | SignalsMacro.AccumulatorDroppedAsWritten | SignalsMacro.SignalExprOf |
| glib-macros/src/signals.rs:322-330 | the return wrapper tests `*class_handler`, which always holds inside `class_handler.then(...)`. A unit-returning method with a body therefore gets `<#return_type as ToValue>` with no type in it, and the `(|()| None)` branch is dead | `#[signal] fn ping(&self) { let _ = 0; }` | test whether there is a return type: convert it with `ToValue` when there is one, otherwise return `None` | not executed | SignalsMacro.UnitHandlerAsWritten | SignalsMacro.ReturnWrapperFor |
| glib-macros/src/clone.rs:559-562 | the error text is a plain string literal, not a `format!`, so it shows the literal `{ret}` instead of the value collected | `clone!(@weak x => @default-return 1` with no further tokens | the message quotes the collected value | not executed | CloneMacro.UnexpectedEndIgnoresValue | CloneMacro.UnexpectedEnd |
