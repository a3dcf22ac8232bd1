/**
 * `#[glib::object_subclass]` (glib-macros/src/object_subclass_attribute.rs):
 * the checks on the `impl ObjectSubclass for T` block, the associated items
 * inserted when the block does not define them, the removal of the
 * `object_subclass_dynamic` marker attribute, and the registration of the
 * type: once statically, or in a plugin eagerly or lazily.
 *
 * The attribute parser and token generation are not modelled: the
 * `object_subclass_dynamic` attribute arrives parsed, and the generated
 * block is described by the items it contains.
 */
module ObjectSubclass {
  import opened Wrappers
  import opened Types
  import opened DynamicType

  const WRONG_PLACE_MSG := "This macro should be used on `impl` block for `glib::ObjectSubclass` trait"
  const NOT_AN_IDENT := "expected this path to be an identifier"
  const DYNAMIC_ATTR := "object_subclass_dynamic"
  const DEFAULT_PLUGIN_TYPE := "TypeModule"

  /** An item of the `impl` block: a function, an associated type, or anything else. */
  datatype ImplItem = FnItem(name: string) | TypeItem(name: string) | OtherItem

  /** Which of the items with defaults the block defines. */
  datatype Presence = Presence(hasNew: bool, hasParentType: bool, hasInterfaces: bool, hasInstance: bool, hasClass: bool)

  predicate HasFn(items: seq<ImplItem>, name: string) {
    exists k :: 0 <= k < |items| && items[k] == FnItem(name)
  }

  predicate HasType(items: seq<ImplItem>, name: string) {
    exists k :: 0 <= k < |items| && items[k] == TypeItem(name)
  }

  /** What the block defines; a `with_class` function counts as `new`. */
  function PresenceOf(items: seq<ImplItem>): Presence {
    Presence(
      HasFn(items, "new") || HasFn(items, "with_class"),
      HasType(items, "ParentType"),
      HasType(items, "Interfaces"),
      HasType(items, "Instance"),
      HasType(items, "Class"))
  }

  /** The loop over the items that sets the `has_*` flags. */
  method ScanItems(items: seq<ImplItem>) returns (p: Presence)
    ensures p == PresenceOf(items)
  {
    p := Presence(false, false, false, false, false);
    var i := 0;
    while i < |items|
      invariant 0 <= i <= |items|
      invariant p == PresenceOf(items[..i])
    {
      PresenceStep(items, i);
      match items[i] {
        case FnItem(name) =>
          if name == "new" || name == "with_class" {
            p := p.(hasNew := true);
          }
        case TypeItem(name) =>
          if name == "ParentType" {
            p := p.(hasParentType := true);
          } else if name == "Interfaces" {
            p := p.(hasInterfaces := true);
          } else if name == "Instance" {
            p := p.(hasInstance := true);
          } else if name == "Class" {
            p := p.(hasClass := true);
          }
        case OtherItem =>
      }
      i := i + 1;
    }
    assert items[..i] == items;
  }

  /** One more item sets the flag it names and leaves the others. */
  lemma PresenceStep(items: seq<ImplItem>, i: nat)
    requires i < |items|
    ensures var p, q, it := PresenceOf(items[..i]), PresenceOf(items[..i + 1]), items[i];
      && q.hasNew == (p.hasNew || it == FnItem("new") || it == FnItem("with_class"))
      && q.hasParentType == (p.hasParentType || it == TypeItem("ParentType"))
      && q.hasInterfaces == (p.hasInterfaces || it == TypeItem("Interfaces"))
      && q.hasInstance == (p.hasInstance || it == TypeItem("Instance"))
      && q.hasClass == (p.hasClass || it == TypeItem("Class"))
  {
    HasFnStep(items, i, "new");
    HasFnStep(items, i, "with_class");
    HasTypeStep(items, i, "ParentType");
    HasTypeStep(items, i, "Interfaces");
    HasTypeStep(items, i, "Instance");
    HasTypeStep(items, i, "Class");
  }

  lemma HasFnStep(items: seq<ImplItem>, i: nat, name: string)
    requires i < |items|
    ensures HasFn(items[..i + 1], name) <==> HasFn(items[..i], name) || items[i] == FnItem(name)
  {
    var pre, longer := items[..i], items[..i + 1];
    assert forall k :: 0 <= k < i ==> longer[k] == pre[k];
    assert longer[i] == items[i];
  }

  lemma HasTypeStep(items: seq<ImplItem>, i: nat, name: string)
    requires i < |items|
    ensures HasType(items[..i + 1], name) <==> HasType(items[..i], name) || items[i] == TypeItem(name)
  {
    var pre, longer := items[..i], items[..i + 1];
    assert forall k :: 0 <= k < i ==> longer[k] == pre[k];
    assert longer[i] == items[i];
  }

  /** An item the macro inserts. */
  datatype DefaultItem =
    | ParentTypeObject   // `type ParentType = glib::Object;`
    | InterfacesUnit     // `type Interfaces = ();`
    | ClassStruct        // `type Class = ClassStruct<Self>;`
    | InstanceStruct     // `type Instance = InstanceStruct<Self>;`
    | DefaultNew         // `fn new() -> Self { Default::default() }`

  /** The inserted items, in the order they are emitted. */
  function Defaults(p: Presence): seq<DefaultItem> {
    (if p.hasParentType then [] else [ParentTypeObject])
    + (if p.hasInterfaces then [] else [InterfacesUnit])
    + (if p.hasClass then [] else [ClassStruct])
    + (if p.hasInstance then [] else [InstanceStruct])
    + (if p.hasNew then [] else [DefaultNew])
  }

  /**
   * Each default is inserted exactly when the block does not define that
   * item (for `new`, neither `new` nor `with_class`).
   */
  lemma DefaultsIff(p: Presence)
    ensures ParentTypeObject in Defaults(p) <==> !p.hasParentType
    ensures InterfacesUnit in Defaults(p) <==> !p.hasInterfaces
    ensures ClassStruct in Defaults(p) <==> !p.hasClass
    ensures InstanceStruct in Defaults(p) <==> !p.hasInstance
    ensures DefaultNew in Defaults(p) <==> !p.hasNew
  {
  }

  /** The attributes without every attribute whose path is `name`, the others kept in order. */
  function RemoveAttr(attrs: seq<string>, name: string): (r: seq<string>)
    ensures name !in r
    ensures forall a :: a in r <==> a in attrs && a != name
    ensures |r| <= |attrs|
    ensures name !in attrs ==> r == attrs
  {
    if |attrs| == 0 then []
    else (if attrs[0] == name then [] else [attrs[0]]) + RemoveAttr(attrs[1..], name)
  }

  /** A single attribute is dropped exactly when its path is `name`. */
  lemma RemoveAttrSingle(a: string, name: string)
    ensures RemoveAttr([a], name) == if a == name then [] else [a]
  {
    assert [a][1..] == [];
  }

  /**
   * Removal works piece by piece: with `RemoveAttrSingle` this says that
   * the kept attributes stay in their order, each copy of each kept.
   */
  lemma {:induction false} RemoveAttrAppend(x: seq<string>, y: seq<string>, name: string)
    ensures RemoveAttr(x + y, name) == RemoveAttr(x, name) + RemoveAttr(y, name)
  {
    if |x| > 0 {
      var head := if x[0] == name then [] else [x[0]];
      assert (x + y)[0] == x[0];
      assert (x + y)[1..] == x[1..] + y;
      assert RemoveAttr(x + y, name) == head + RemoveAttr(x[1..] + y, name);
      RemoveAttrAppend(x[1..], y, name);
      assert RemoveAttr(x, name) == head + RemoveAttr(x[1..], name);
    } else {
      assert x + y == y;
    }
  }

  /** Every other attribute keeps all its copies; `name` keeps none. */
  lemma {:induction false} RemoveAttrCopies(attrs: seq<string>, name: string)
    ensures multiset(RemoveAttr(attrs, name))[name] == 0
    ensures forall a :: a != name ==> multiset(RemoveAttr(attrs, name))[a] == multiset(attrs)[a]
  {
    if |attrs| > 0 {
      RemoveAttrCopies(attrs[1..], name);
      assert attrs == [attrs[0]] + attrs[1..];
    }
  }

  /** The `object_subclass_dynamic(plugin_type = …, lazy_registration = …)` attribute. */
  datatype DynamicAttr = DynamicAttr(pluginType: Option<string>, lazyRegistration: Option<bool>)

  /** How the type is registered. */
  datatype Registration = StaticRegistration | DynamicRegistration(pluginType: string, lazy: bool)

  /**
   * The `impl` block: whether its self type is a plain identifier, its
   * attributes, the dynamic attribute as parsed, its trait path, if any,
   * and its items.
   */
  datatype SubclassInput = SubclassInput(
    selfIsIdent: bool,
    attrs: seq<string>,
    dynamicAttr: Result<Option<DynamicAttr>, string>,
    traitPath: Option<string>,
    items: seq<ImplItem>)

  /** The generated block, as data. */
  datatype Generated = Generated(
    attrs: seq<string>,
    traitPath: string,
    defaults: seq<DefaultItem>,
    items: seq<ImplItem>,
    registration: Registration)

  /** The registration an attribute asks for: the plugin type defaults to `TypeModule`, registration is eager unless `lazy_registration = true`. */
  function RegistrationOf(found: Option<DynamicAttr>): Registration {
    match found
    case None => StaticRegistration
    case Some(a) =>
      DynamicRegistration(
        if a.pluginType.Some? then a.pluginType.value else DEFAULT_PLUGIN_TYPE,
        a.lazyRegistration == Some(true))
  }

  /**
   * `impl_object_subclass`: the self type must be an identifier, the
   * dynamic attribute must parse, and the block must implement a trait;
   * the errors are reported in that order. The dynamic attribute is removed
   * from the output, the missing items are inserted before the block's own.
   */
  function ImplObjectSubclass(input: SubclassInput): (r: Result<Generated, string>)
    ensures !input.selfIsIdent ==> r == Err(NOT_AN_IDENT)
    ensures input.selfIsIdent && input.dynamicAttr.Err? ==> r == Err(input.dynamicAttr.error)
    ensures input.selfIsIdent && input.dynamicAttr.Ok? && input.traitPath.None? ==> r == Err(WRONG_PLACE_MSG)
    ensures r.Ok? <==> input.selfIsIdent && input.dynamicAttr.Ok? && input.traitPath.Some?
    ensures r.Ok? ==>
      r.value.traitPath == input.traitPath.value
      && r.value.items == input.items
      && r.value.defaults == Defaults(PresenceOf(input.items))
      && r.value.registration == RegistrationOf(input.dynamicAttr.value)
      && (input.dynamicAttr.value.Some? ==> r.value.attrs == RemoveAttr(input.attrs, DYNAMIC_ATTR))
      && (input.dynamicAttr.value.None? ==> r.value.attrs == input.attrs)
  {
    if !input.selfIsIdent then Err(NOT_AN_IDENT)
    else match input.dynamicAttr
      case Err(e) => Err(e)
      case Ok(found) =>
        var attrs := if found.Some? then RemoveAttr(input.attrs, DYNAMIC_ATTR) else input.attrs;
        match input.traitPath
        case None => Err(WRONG_PLACE_MSG)
        case Some(path) =>
          Ok(Generated(attrs, path, Defaults(PresenceOf(input.items)), input.items, RegistrationOf(found)))
  }

  // ------------------------------------------------------------ registration

  /**
   * Static registration: `register_type` runs the type registration under
   * a `Once`, so it happens on the first call and never again.
   */
  class StaticSubclass {
    var done: bool
    var registrations: nat

    predicate Valid()
      reads this
    {
      registrations == if done then 1 else 0
    }

    constructor()
      ensures !done && registrations == 0 && Valid()
    {
      done := false;
      registrations := 0;
    }

    method RegisterType()
      requires Valid()
      modifies this
      ensures Valid() && done && registrations == 1
      ensures old(done) ==> registrations == old(registrations)
    {
      if !done {
        registrations := registrations + 1;
        done := true;
      }
    }
  }

  /** The lazily registered dynamic subclass: its `REGISTRATION_STATUS`. */
  class LazyDynamicSubclass {
    var status: Status

    constructor()
      ensures status == None
    {
      status := None;
    }

    /** `register_type`; `registered` is what `register_dynamic_type` returns. Nothing is returned. */
    method RegisterType(registered: GType)
      modifies this
      ensures status == Register(old(status), registered).0
    {
      match status {
        case None =>
        case Some(Entry(plugin, gtype)) =>
          if gtype == TYPE_INVALID {
            status := Some(Entry(plugin, registered));
          }
      }
    }

    /** `on_implementation_load`; `registered` is what re-registering returns. */
    method OnImplementationLoad(plugin: Plugin, registered: GType) returns (ok: bool)
      modifies this
      ensures (status, ok) == Load(old(status), plugin, registered)
    {
      match status {
        case None =>
          status := Some(Entry(plugin, TYPE_INVALID));
          ok := true;
        case Some(Entry(p, gtype)) =>
          if gtype != TYPE_INVALID {
            status := Some(Entry(p, registered));
            ok := registered != TYPE_INVALID;
          } else {
            ok := true;
          }
      }
    }

    /** `on_implementation_unload`. */
    method OnImplementationUnload() returns (ok: bool)
      modifies this
      ensures (status, ok) == Unload(old(status))
    {
      match status {
        case None =>
          ok := false;
        case Some(Entry(_, gtype)) =>
          if gtype != TYPE_INVALID {
            ok := true;
          } else {
            status := None;
            ok := true;
          }
      }
    }
  }

  /**
   * The eagerly registered dynamic subclass keeps no state:
   * `on_implementation_load` registers and reports whether the type is
   * valid (the type itself lives in the subclass's type data).
   */
  method EagerOnImplementationLoad(registered: GType) returns (ok: bool)
    ensures ok <==> registered != TYPE_INVALID
  {
    ok := registered != TYPE_INVALID;
  }

  /** `on_implementation_unload` of the eager variant: subclasses are never unregistered. */
  method EagerOnImplementationUnload() returns (ok: bool)
    ensures ok
  {
    ok := true;
  }
}
