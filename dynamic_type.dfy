/**
 * The registration status that the glib macros generate for a type
 * registered lazily in a plugin (`lazy_registration = true` of the dynamic
 * enum, object subclass and object interface macros). Nothing is stored
 * until the plugin first loads the implementation; the load stores the
 * plugin and postpones the registration; the first use of the type
 * registers it with that plugin. A reload re-registers a registered type,
 * and an unload cancels a registration still postponed.
 *
 * The three generated state machines agree branch for branch; they are
 * stated once here, and each macro's generated code is a class whose
 * methods are proved against these functions.
 */
module DynamicType {
  import opened Wrappers
  import opened Types

  /** A (weak) reference to the plugin that loaded the implementation. */
  type Plugin = nat

  /** The stored plugin and type; the type is `TYPE_INVALID` while the registration is postponed. */
  datatype Entry = Entry(plugin: Plugin, gtype: GType)

  type Status = Option<Entry>

  /** The plugin has loaded the implementation but the type is not registered yet. */
  predicate Postponed(s: Status) {
    s.Some? && s.value.gtype == TYPE_INVALID
  }

  /** The type is registered in the plugin. */
  predicate Registered(s: Status) {
    s.Some? && s.value.gtype != TYPE_INVALID
  }

  /** The type the status holds: the stored one, or `TYPE_INVALID` when nothing is stored. */
  function StoredType(s: Status): GType {
    if s.Some? then s.value.gtype else TYPE_INVALID
  }

  /**
   * `register_enum` / `register_type` / `register_interface`, lazy variant.
   * `registered` is what registering the type with the stored plugin
   * returns.
   */
  function Register(s: Status, registered: GType): (r: (Status, GType))
    ensures r.1 == StoredType(r.0)
    ensures !Postponed(s) ==> r.0 == s
    ensures Postponed(s) ==> r.0 == Some(Entry(s.value.plugin, registered))
  {
    match s
    case None => (None, TYPE_INVALID)
    case Some(Entry(plugin, gtype)) =>
      if gtype == TYPE_INVALID then (Some(Entry(plugin, registered)), registered)
      else (s, gtype)
  }

  /**
   * `on_implementation_load`, lazy variant. `registered` is what
   * re-registering the type with the loading plugin returns.
   */
  function Load(s: Status, plugin: Plugin, registered: GType): (r: (Status, bool))
    ensures !r.1 <==> Registered(s) && registered == TYPE_INVALID
    ensures s.None? ==> r.0 == Some(Entry(plugin, TYPE_INVALID))
    ensures s.Some? ==> r.0.Some? && r.0.value.plugin == s.value.plugin
    ensures Registered(s) ==> StoredType(r.0) == registered
    ensures Postponed(s) ==> r.0 == s
  {
    match s
    case None => (Some(Entry(plugin, TYPE_INVALID)), true)
    case Some(Entry(p, gtype)) =>
      if gtype != TYPE_INVALID then (Some(Entry(p, registered)), registered != TYPE_INVALID)
      else (s, true)
  }

  /** `on_implementation_unload`, lazy variant. */
  function Unload(s: Status): (r: (Status, bool))
    ensures r.1 <==> s.Some?
    ensures !Postponed(s) ==> r.0 == s
    ensures Postponed(s) ==> r.0.None?
  {
    match s
    case None => (None, false)
    case Some(Entry(_, gtype)) =>
      if gtype != TYPE_INVALID then (s, true) else (None, true)
  }

  /** Nothing can be registered before the plugin has loaded the implementation. */
  lemma NoRegistrationBeforeLoad(registered: GType)
    ensures Register(None, registered) == (None, TYPE_INVALID)
  {
  }

  /** The first use after the first load registers the type with the plugin of that load. */
  lemma FirstUseRegisters(plugin: Plugin, reloaded: GType, registered: GType)
    ensures Register(Load(None, plugin, reloaded).0, registered) == (Some(Entry(plugin, registered)), registered)
  {
  }

  /** Once registered, `register_*` registers nothing again and returns the same type. */
  lemma RegisterOnce(s: Status, a: GType, b: GType)
    requires Registered(Register(s, a).0)
    ensures Register(Register(s, a).0, b) == Register(s, a)
  {
  }

  /** Unloading a plugin that loaded but never used the type forgets it. */
  lemma UnloadCancelsPostponed(plugin: Plugin, reloaded: GType)
    ensures Unload(Load(None, plugin, reloaded).0) == (None, true)
  {
  }

  /**
   * A reload whose re-registration fails leaves the registration postponed,
   * so the unload that follows forgets the type.
   */
  lemma FailedReloadForgets(s: Status, plugin: Plugin)
    requires Registered(s)
    ensures Load(s, plugin, TYPE_INVALID) == (Some(Entry(s.value.plugin, TYPE_INVALID)), false)
    ensures Unload(Load(s, plugin, TYPE_INVALID).0) == (None, true)
  {
  }

  /** The plugin's lifecycle as seen by one type: loads, unloads and uses. */
  datatype Event =
    | LoadEvent(plugin: Plugin, registered: GType)
    | UnloadEvent
    | UseEvent(registered: GType)

  /** The status after one event. */
  function Step(s: Status, e: Event): Status {
    match e
    case LoadEvent(plugin, registered) => Load(s, plugin, registered).0
    case UnloadEvent => Unload(s).0
    case UseEvent(registered) => Register(s, registered).0
  }

  /** The status after a sequence of events. */
  function Run(s: Status, events: seq<Event>): Status
    decreases |events|
  {
    if |events| == 0 then s
    else
      Run(Step(s, events[0]), events[1..])
  }

  /** Between reloads, a registered type stays registered as it is: unloads and uses change nothing. */
  lemma {:induction false} RegisteredUntilReload(s: Status, events: seq<Event>)
    requires Registered(s)
    requires forall k :: 0 <= k < |events| ==> !events[k].LoadEvent?
    ensures Run(s, events) == s
    decreases |events|
  {
    if |events| > 0 {
      RegisteredUntilReload(s, events[1..]);
    }
  }

  /**
   * Without an unload a stored entry is never dropped, and it keeps the
   * plugin of the load that created it: a reload by another plugin does
   * not replace the stored reference.
   */
  lemma {:induction false} PluginKept(s: Status, events: seq<Event>)
    requires s.Some?
    requires forall k :: 0 <= k < |events| ==> !events[k].UnloadEvent?
    ensures Run(s, events).Some? && Run(s, events).value.plugin == s.value.plugin
    decreases |events|
  {
    if |events| > 0 {
      PluginKept(Step(s, events[0]), events[1..]);
    }
  }
}
