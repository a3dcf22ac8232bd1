/**
 * `#[glib::object_interface]` (glib-macros/src/object_interface_attribute.rs):
 * the checks on the `impl ObjectInterface for T` block, the
 * `type Prerequisites = ();` inserted when the block does not define it,
 * the removal of the `object_interface_dynamic` marker attribute, and the
 * registration of the interface type: once statically, or in a plugin
 * eagerly or lazily.
 */
module ObjectInterface {
  import opened Wrappers
  import opened Types
  import opened DynamicType
  import ObjectSubclass

  type ImplItem = ObjectSubclass.ImplItem

  const WRONG_PLACE_MSG := "This macro should be used on `impl` block for `glib::ObjectInterface` trait"
  const DYNAMIC_ATTR := "object_interface_dynamic"

  /** The loop over the items that looks for `type Prerequisites`. */
  method HasPrerequisites(items: seq<ImplItem>) returns (found: bool)
    ensures found <==> ObjectSubclass.HasType(items, "Prerequisites")
  {
    found := false;
    var i := 0;
    while i < |items|
      invariant 0 <= i <= |items|
      invariant found <==> ObjectSubclass.HasType(items[..i], "Prerequisites")
    {
      var prefix := items[..i + 1];
      assert prefix[..i] == items[..i] && prefix[i] == items[i];
      if items[i].TypeItem? && items[i].name == "Prerequisites" {
        found := true;
      }
      i := i + 1;
    }
    assert items[..i] == items;
  }

  /** The `impl` block, as for an object subclass. */
  datatype InterfaceInput = InterfaceInput(
    selfIsIdent: bool,
    attrs: seq<string>,
    dynamicAttr: Result<Option<ObjectSubclass.DynamicAttr>, string>,
    traitPath: Option<string>,
    items: seq<ImplItem>)

  /** The generated block, as data: `addsPrerequisites` is the inserted `type Prerequisites = ();`. */
  datatype Generated = Generated(
    attrs: seq<string>,
    traitPath: string,
    addsPrerequisites: bool,
    items: seq<ImplItem>,
    registration: ObjectSubclass.Registration)

  /**
   * `impl_object_interface`: the self type must be an identifier, the
   * dynamic attribute must parse, and the block must implement a trait,
   * in that order. `type Prerequisites = ();` is added exactly when the
   * block does not define `Prerequisites`.
   */
  function ImplObjectInterface(input: InterfaceInput): (r: Result<Generated, string>)
    ensures !input.selfIsIdent ==> r == Err(ObjectSubclass.NOT_AN_IDENT)
    ensures input.selfIsIdent && input.dynamicAttr.Err? ==> r == Err(input.dynamicAttr.error)
    ensures input.selfIsIdent && input.dynamicAttr.Ok? && input.traitPath.None? ==> r == Err(WRONG_PLACE_MSG)
    ensures r.Ok? <==> input.selfIsIdent && input.dynamicAttr.Ok? && input.traitPath.Some?
    ensures r.Ok? ==>
      r.value.traitPath == input.traitPath.value
      && r.value.items == input.items
      && (r.value.addsPrerequisites <==> !ObjectSubclass.HasType(input.items, "Prerequisites"))
      && r.value.registration == ObjectSubclass.RegistrationOf(input.dynamicAttr.value)
      && (input.dynamicAttr.value.Some? ==> r.value.attrs == ObjectSubclass.RemoveAttr(input.attrs, DYNAMIC_ATTR))
      && (input.dynamicAttr.value.None? ==> r.value.attrs == input.attrs)
  {
    if !input.selfIsIdent then Err(ObjectSubclass.NOT_AN_IDENT)
    else match input.dynamicAttr
      case Err(e) => Err(e)
      case Ok(found) =>
        var attrs := if found.Some? then ObjectSubclass.RemoveAttr(input.attrs, DYNAMIC_ATTR) else input.attrs;
        match input.traitPath
        case None => Err(WRONG_PLACE_MSG)
        case Some(path) =>
          Ok(Generated(attrs, path, !ObjectSubclass.HasType(input.items, "Prerequisites"), input.items,
                       ObjectSubclass.RegistrationOf(found)))
  }

  // ------------------------------------------------------------ registration

  /**
   * Static registration: `register_interface` initialises a `OnceLock` with
   * the registered type on the first call and returns the stored type.
   */
  class StaticInterface {
    var cell: Option<GType>

    constructor()
      ensures cell == None
    {
      cell := None;
    }

    /** `registered` is what `register_interface::<Self>()` returns. */
    method RegisterInterface(registered: GType) returns (t: GType)
      modifies this
      ensures cell.Some? && t == cell.value
      ensures old(cell).Some? ==> cell == old(cell)
      ensures old(cell).None? ==> t == registered
    {
      if cell.None? {
        cell := Some(registered);
      }
      t := cell.value;
    }
  }

  /** The lazily registered dynamic interface: its `REGISTRATION_STATUS`. */
  class LazyDynamicInterface {
    var status: Status

    constructor()
      ensures status == None
    {
      status := None;
    }

    /** `register_interface`; `registered` is what `register_dynamic_interface` returns. */
    method RegisterInterface(registered: GType) returns (t: GType)
      modifies this
      ensures (status, t) == Register(old(status), registered)
    {
      match status {
        case None =>
          t := TYPE_INVALID;
        case Some(Entry(plugin, gtype)) =>
          if gtype == TYPE_INVALID {
            status := Some(Entry(plugin, registered));
            t := registered;
          } else {
            t := gtype;
          }
      }
    }

    /** `on_implementation_load`; `registered` is what re-registering returns. */
    method OnImplementationLoad(plugin: Plugin, registered: GType) returns (ok: bool)
      modifies this
      ensures (status, ok) == Load(old(status), plugin, registered)
    {
      match status {
        case None =>
          status := Some(Entry(plugin, TYPE_INVALID));
          ok := true;
        case Some(Entry(p, gtype)) =>
          if gtype != TYPE_INVALID {
            status := Some(Entry(p, registered));
            ok := registered != TYPE_INVALID;
          } else {
            ok := true;
          }
      }
    }

    /** `on_implementation_unload`. */
    method OnImplementationUnload() returns (ok: bool)
      modifies this
      ensures (status, ok) == Unload(old(status))
    {
      match status {
        case None =>
          ok := false;
        case Some(Entry(_, gtype)) =>
          if gtype != TYPE_INVALID {
            ok := true;
          } else {
            status := None;
            ok := true;
          }
      }
    }
  }

  /** The eagerly registered dynamic interface: its atomic type cell, set on every load. */
  class DynamicInterface {
    var gtype: GType

    constructor()
      ensures gtype == TYPE_INVALID
    {
      gtype := TYPE_INVALID;
    }

    /** `register_interface`: the type stored by the last load, `TYPE_INVALID` before any. */
    method RegisterInterface() returns (t: GType)
      ensures t == gtype
    {
      t := gtype;
    }

    /** `on_implementation_load`: stores what the registration returns and reports whether it is valid. */
    method OnImplementationLoad(registered: GType) returns (ok: bool)
      modifies this
      ensures gtype == registered
      ensures ok <==> gtype != TYPE_INVALID
    {
      gtype := registered;
      ok := gtype != TYPE_INVALID;
    }

    /** `on_implementation_unload`: interfaces are never unregistered. */
    method OnImplementationUnload() returns (ok: bool)
      ensures ok
    {
      ok := true;
    }
  }
}
