/**
 * gio/src/subclass/action.rs: how a `GAction` implemented in Rust maps
 * GObject property ids to the five `GAction` properties. `interface_init`
 * records, on the implementing type, the first id it overrides; lookups
 * walk up the type's parent chain to the nearest type with a record.
 */
module Action {
  import opened Wrappers

  type GType = nat

  datatype ActionProperty = Name | ParameterType | StateType | Enabled | State

  /** The `#[repr(C)]` discriminant: the property's offset from the first id. */
  function Offset(p: ActionProperty): (k: nat)
    ensures k < 5
  {
    match p
    case Name => 0
    case ParameterType => 1
    case StateType => 2
    case Enabled => 3
    case State => 4
  }

  /** The property names `interface_init` overrides. */
  function PropertyName(p: ActionProperty): string {
    match p
    case Name => "name"
    case ParameterType => "parameter-type"
    case StateType => "state-type"
    case Enabled => "enabled"
    case State => "state"
  }

  /**
   * `ActionProperty::from_id`: the property at offset `id - firstProp`,
   * `None` below the first id (`checked_sub` fails) or five or more past it.
   */
  function FromId(firstProp: nat, id: nat): (r: Option<ActionProperty>)
    ensures r.Some? <==> firstProp <= id < firstProp + 5
    ensures r.Some? ==> firstProp + Offset(r.value) == id
  {
    if id < firstProp then None
    else match id - firstProp
      case 0 => Some(Name)
      case 1 => Some(ParameterType)
      case 2 => Some(StateType)
      case 3 => Some(Enabled)
      case 4 => Some(State)
      case _ => None
  }

  /** Every property is found again at its own id: `from_id` inverts the offsets. */
  lemma FromIdOffset(firstProp: nat, p: ActionProperty)
    ensures FromId(firstProp, firstProp + Offset(p)) == Some(p)
  {
  }

  /**
   * The type hierarchy as far as the lookup needs it: each type's parent,
   * and a depth that strictly decreases towards the root (the chain of
   * parents ends).
   */
  datatype Hierarchy = Hierarchy(parent: map<GType, GType>, depth: map<GType, nat>)

  predicate Rooted(h: Hierarchy) {
    forall t :: t in h.parent ==>
      t in h.depth && h.parent[t] in h.depth && h.depth[h.parent[t]] < h.depth[t]
  }

  /**
   * The first id recorded on `t` or, failing that, on its nearest ancestor
   * with a record; `None` when no type on the chain has one.
   */
  function FirstPropOf(h: Hierarchy, recorded: map<GType, nat>, t: GType): (r: Option<nat>)
    requires Rooted(h) && t in h.depth
    ensures t in recorded ==> r == Some(recorded[t])
    ensures t !in recorded && t !in h.parent ==> r.None?
    ensures r.Some? ==> r.value in recorded.Values
    decreases h.depth[t]
  {
    if t in recorded then Some(recorded[t])
    else if t in h.parent then FirstPropOf(h, recorded, h.parent[t])
    else None
  }

  /** A type without a record of its own answers as its parent does. */
  lemma InheritsParentRecord(h: Hierarchy, recorded: map<GType, nat>, t: GType)
    requires Rooted(h) && t in h.depth && t !in recorded && t in h.parent
    ensures FirstPropOf(h, recorded, t) == FirstPropOf(h, recorded, h.parent[t])
  {
  }

  /**
   * The per-type data `interface_init` writes: the first overridden id of
   * each implementing type (the type's qdata), and each type's overridden
   * properties by id.
   */
  class ActionTypes {
    var firstProp: map<GType, nat>
    var overrides: map<GType, map<nat, string>>

    constructor ()
      ensures firstProp == map[] && overrides == map[]
    {
      firstProp := map[];
      overrides := map[];
    }

    /**
     * `interface_init` for `instanceType`, whose class already lists
     * `nProperties` properties: the first id is one past them, and the
     * five properties are overridden at that id and the four after it.
     */
    method InterfaceInit(instanceType: GType, nProperties: nat)
      modifies this
      ensures firstProp == old(firstProp)[instanceType := nProperties + 1]
      ensures instanceType in overrides
      ensures forall t :: t in old(overrides) && t != instanceType ==> t in overrides && overrides[t] == old(overrides)[t]
      ensures forall p ::
        && nProperties + 1 + Offset(p) in overrides[instanceType]
        && overrides[instanceType][nProperties + 1 + Offset(p)] == PropertyName(p)
      ensures forall id :: id in overrides[instanceType] && FromId(nProperties + 1, id).None? ==>
        instanceType in old(overrides) && id in old(overrides)[instanceType]
        && overrides[instanceType][id] == old(overrides)[instanceType][id]
    {
      var first := nProperties + 1;
      firstProp := firstProp[instanceType := first];
      var props := if instanceType in overrides then overrides[instanceType] else map[];
      props := props[first + Offset(Name) := PropertyName(Name)];
      props := props[first + Offset(ParameterType) := PropertyName(ParameterType)];
      props := props[first + Offset(StateType) := PropertyName(StateType)];
      props := props[first + Offset(Enabled) := PropertyName(Enabled)];
      props := props[first + Offset(State) := PropertyName(State)];
      overrides := overrides[instanceType := props];
      assert forall p :: first + Offset(p) in props && props[first + Offset(p)] == PropertyName(p) by {
        forall p ensures first + Offset(p) in props && props[first + Offset(p)] == PropertyName(p) {
          match p
          case Name =>
          case ParameterType =>
          case StateType =>
          case Enabled =>
          case State =>
        }
      }
    }

    /**
     * `ActionProperty::from_type`: walks from `t` up the parent chain to
     * the first type with a recorded first id and decodes `id` against
     * it; `None` when the chain ends first.
     */
    method FromType(h: Hierarchy, t: GType, id: nat) returns (r: Option<ActionProperty>)
      requires Rooted(h) && t in h.depth
      ensures FirstPropOf(h, firstProp, t).None? ==> r.None?
      ensures FirstPropOf(h, firstProp, t).Some? ==> r == FromId(FirstPropOf(h, firstProp, t).value, id)
    {
      var type_ := t;
      while true
        invariant type_ in h.depth
        invariant FirstPropOf(h, firstProp, type_) == FirstPropOf(h, firstProp, t)
        decreases h.depth[type_]
      {
        if type_ in firstProp {
          return FromId(firstProp[type_], id);
        }
        if type_ !in h.parent {
          return None;
        }
        type_ := h.parent[type_];
      }
    }
  }

  /**
   * Once `interface_init` has run for `t`, every one of the five ids it
   * overrode on `t` decodes to the property overridden there, for `t` and
   * for any subclass of `t` that has no record of its own.
   */
  method InitThenLookup(types: ActionTypes, h: Hierarchy, t: GType, sub: GType, nProperties: nat, p: ActionProperty)
      returns (own: Option<ActionProperty>, inherited: Option<ActionProperty>)
    requires Rooted(h) && t in h.depth && sub in h.parent && h.parent[sub] == t
    requires sub !in types.firstProp && sub != t
    modifies types
    ensures own == Some(p) && inherited == Some(p)
    ensures t in types.overrides && nProperties + 1 + Offset(p) in types.overrides[t]
    ensures types.overrides[t][nProperties + 1 + Offset(p)] == PropertyName(p)
  {
    types.InterfaceInit(t, nProperties);
    own := types.FromType(h, t, nProperties + 1 + Offset(p));
    inherited := types.FromType(h, sub, nProperties + 1 + Offset(p));
  }

  /**
   * `delegate_get_property`: the value of the property `id` denotes on
   * `t` (read through `read`), `None` when it denotes none of the five.
   */
  function DelegateGetProperty<V>(h: Hierarchy, recorded: map<GType, nat>, t: GType, id: nat,
                                  read: ActionProperty -> V): (r: Option<V>)
    requires Rooted(h) && t in h.depth
    ensures r.None? <==>
      (FirstPropOf(h, recorded, t).None? || FromId(FirstPropOf(h, recorded, t).value, id).None?)
    ensures r.Some? ==> r.value == read(FromId(FirstPropOf(h, recorded, t).value, id).value)
  {
    match FirstPropOf(h, recorded, t)
    case None => None
    case Some(first) =>
      match FromId(first, id)
      case None => None
      case Some(p) => Some(read(p))
  }

  /** `delegate_set_property`: never handles the write. */
  function DelegateSetProperty<V>(id: nat, value: V): (handled: bool)
    ensures !handled
  {
    false
  }
}
