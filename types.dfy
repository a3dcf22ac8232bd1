/**
 * Per-type data of subclasses (glib/src/subclass/types.rs): the offsets
 * between an instance and its implementation struct, the parent-interface
 * and class-data maps, instance data, and the guards of `register_type`.
 * Boxed `Any` data is a value together with the id of its Rust type, so a
 * downcast succeeds exactly when the ids agree.
 */
module Types {
  import opened Wrappers
  import Text

  type GType = int

  /** `G_TYPE_INVALID`. */
  const TYPE_INVALID: GType := 0

  /** A `Box<dyn Any>`: the stored value and the id of its type. */
  datatype AnyBox<D> = AnyBox(typeId: int, value: D)

  /** `downcast_ref`: the value when the requested type is the stored one. */
  function Downcast<D>(b: AnyBox<D>, typeId: int): (r: Option<D>)
    ensures r.Some? <==> b.typeId == typeId
    ensures r.Some? ==> r.value == b.value
  {
    if b.typeId == typeId then Some(b.value) else None
  }

  /**
   * The rule `set_class_data` and `set_instance_data` share: create the map
   * when absent, refuse (panic, `None`) a key that is already there,
   * otherwise insert.
   */
  function InsertNew<V>(m: Option<map<GType, V>>, k: GType, v: V): (r: Option<map<GType, V>>)
    ensures r.None? <==> m.Some? && k in m.value
    ensures r.Some? ==> r.value == (if m.None? then map[] else m.value)[k := v]
  {
    match m
    case None => Some(map[k := v])
    case Some(mp) => if k in mp then None else Some(mp[k := v])
  }

  /** A successful insert adds exactly the new key and keeps every other entry. */
  lemma InsertNewKeepsOthers<V>(m: Option<map<GType, V>>, k: GType, v: V, other: GType)
    requires InsertNew(m, k, v).Some? && other != k
    ensures var r := InsertNew(m, k, v).value;
      k in r && r[k] == v &&
      (other in r <==> m.Some? && other in m.value) &&
      (other in r ==> r[other] == m.value[other])
  {
  }

  /** The lookup of `class_data` and of `instance_data`. */
  function LookupData<D>(m: Option<map<GType, AnyBox<D>>>, k: GType, typeId: int): (r: Option<D>)
    ensures r.Some? <==> m.Some? && k in m.value && m.value[k].typeId == typeId
    ensures r.Some? ==> r.value == m.value[k].value
  {
    match m
    case None => None
    case Some(mp) => if k in mp then Downcast(mp[k], typeId) else None
  }

  /** Data set under a type and read back under the same type and type id is the data set. */
  lemma SetThenGet<D>(m: Option<map<GType, AnyBox<D>>>, k: GType, typeId: int, d: D, other: GType, otherId: int)
    requires InsertNew(m, k, AnyBox(typeId, d)).Some?
    ensures LookupData(InsertNew(m, k, AnyBox(typeId, d)), k, typeId) == Some(d)
    ensures other != k ==> LookupData(InsertNew(m, k, AnyBox(typeId, d)), other, otherId) == LookupData(m, other, otherId)
  {
  }

  /** `impl_offset`. */
  function ImplOffset(privateOffset: int, privateImpOffset: int): int
  {
    privateOffset + privateImpOffset
  }

  /** `imp()`: the implementation struct lies `impl_offset` bytes from the instance. */
  function Imp(instancePtr: int, implOffset: int): int
  {
    instancePtr + implOffset
  }

  /** `instance()`: offsets the implementation pointer by the negated `impl_offset`. */
  function Instance(impPtr: int, implOffset: int): int
  {
    impPtr + -implOffset
  }

  lemma ImpInstanceInverse(ptr: int, privateOffset: int, privateImpOffset: int)
    ensures var off := ImplOffset(privateOffset, privateImpOffset);
      Instance(Imp(ptr, off), off) == ptr && Imp(Instance(ptr, off), off) == ptr
  {
  }

  /**
   * `TypeData`: the registered type, the offsets and the two maps that are
   * filled in while the type is initialised. `I` is the copied parent
   * interface struct, `D` class data.
   */
  class TypeData<I, D> {
    var typ: GType
    var privateOffset: int
    var privateImpOffset: int
    var parentIfaces: Option<map<GType, I>>
    var classData: Option<map<GType, AnyBox<D>>>

    constructor ()
      ensures typ == TYPE_INVALID && privateOffset == 0 && privateImpOffset == 0
      ensures parentIfaces.None? && classData.None?
    {
      typ := TYPE_INVALID;
      privateOffset := 0;
      privateImpOffset := 0;
      parentIfaces := None;
      classData := None;
    }

    function ImplOffsetOf(): int
      reads this
    {
      ImplOffset(privateOffset, privateImpOffset)
    }

    /** `parent_interface`: `None` is the panic when no map exists or the interface is not in it. */
    function ParentInterface(iface: GType): (r: Option<I>)
      reads this
      ensures r.None? <==> parentIfaces.None? || iface !in parentIfaces.value
      ensures r.Some? ==> r.value == parentIfaces.value[iface]
    {
      match parentIfaces
      case None => None
      case Some(m) => if iface in m then Some(m[iface]) else None
    }

    /** `class_data`. */
    function ClassData(k: GType, typeId: int): Option<D>
      reads this
    {
      LookupData(classData, k, typeId)
    }

    /** `set_class_data`: `false` is the duplicate-key panic, which leaves the map alone. */
    method SetClassData(k: GType, typeId: int, d: D) returns (ok: bool)
      modifies this
      ensures ok <==> InsertNew(old(classData), k, AnyBox(typeId, d)).Some?
      ensures ok ==> classData == InsertNew(old(classData), k, AnyBox(typeId, d))
      ensures !ok ==> classData == old(classData)
      ensures typ == old(typ) && parentIfaces == old(parentIfaces)
      ensures privateOffset == old(privateOffset) && privateImpOffset == old(privateImpOffset)
    {
      var m := if classData.None? then map[] else classData.value;
      if k in m {
        return false;
      }
      classData := Some(m[k := AnyBox(typeId, d)]);
      ok := true;
    }

    /**
     * The trampoline `interface_init`: records a copy of the parent's
     * interface struct under the interface type, creating the map on first
     * use (a later record for the same interface replaces the earlier one).
     */
    method InterfaceInit(iface: GType, parentCopy: I)
      modifies this
      ensures parentIfaces == Some((if old(parentIfaces).None? then map[] else old(parentIfaces).value)[iface := parentCopy])
      ensures typ == old(typ) && classData == old(classData)
      ensures privateOffset == old(privateOffset) && privateImpOffset == old(privateImpOffset)
    {
      if parentIfaces.None? {
        parentIfaces := Some(map[]);
      }
      parentIfaces := Some(parentIfaces.value[iface := parentCopy]);
    }
  }

  /** After `interface_init`, `parent_interface` finds the recorded copy. */
  method InterfaceInitThenParent<I, D>(td: TypeData<I, D>, iface: GType, parentCopy: I) returns (r: Option<I>)
    modifies td
    ensures r == Some(parentCopy)
  {
    td.InterfaceInit(iface, parentCopy);
    r := td.ParentInterface(iface);
  }

  /** The private struct of an instance, which holds its instance data. */
  class PrivateStruct<D> {
    var instanceData: Option<map<GType, AnyBox<D>>>

    constructor ()
      ensures instanceData.None?
    {
      instanceData := None;
    }

    /** `instance_data`. */
    function InstanceData(k: GType, typeId: int): Option<D>
      reads this
    {
      LookupData(instanceData, k, typeId)
    }

    /**
     * `set_instance_data`: `false` is a panic, when the subclass type is
     * not registered (`selfType` is invalid) or the key is already there.
     */
    method SetInstanceData(selfType: GType, k: GType, typeId: int, d: D) returns (ok: bool)
      modifies this
      ensures ok <==> selfType != TYPE_INVALID && InsertNew(old(instanceData), k, AnyBox(typeId, d)).Some?
      ensures ok ==> instanceData == InsertNew(old(instanceData), k, AnyBox(typeId, d))
      ensures !ok ==> instanceData == old(instanceData)
    {
      if selfType == TYPE_INVALID {
        return false;
      }
      var next := InsertNew(instanceData, k, AnyBox(typeId, d));
      if next.None? {
        return false;
      }
      instanceData := next;
      ok := true;
    }
  }

  datatype RegisterError = AlignmentTooLarge | NameHasNul | AlreadyRegistered

  /**
   * The checks `register_type` makes before registering: the
   * implementation's alignment fits GLib's two-`gsize` private alignment,
   * the name converts to a C string, and no type of that name exists.
   */
  function RegisterTypeCheck(align: nat, usizeSize: nat, name: seq<Text.byte>, existing: set<seq<Text.byte>>)
    : (r: Result<(), RegisterError>)
    ensures r.Ok? <==> align <= 2 * usizeSize && 0 !in name && name !in existing
    ensures align > 2 * usizeSize ==> r == Err(AlignmentTooLarge)
  {
    if align > 2 * usizeSize then Err(AlignmentTooLarge)
    else if 0 in name then Err(NameHasNul)
    else if name in existing then Err(AlreadyRegistered)
    else Ok(())
  }

  /** The names GLib knows, and the id it hands out next. */
  class TypeRegistry {
    var names: map<seq<Text.byte>, GType>
    var nextId: GType

    constructor ()
      ensures names == map[] && nextId == 1
    {
      names := map[];
      nextId := 1;
    }

    predicate Valid()
      reads this
    {
      nextId > 0 && forall n :: n in names ==> 0 < names[n] < nextId
    }

    /** `register_type`: only a new name registers, and it gets a new, valid type id. */
    method RegisterType(align: nat, usizeSize: nat, name: seq<Text.byte>) returns (r: Result<GType, RegisterError>)
      requires Valid()
      modifies this
      ensures Valid()
      ensures r.Ok? <==> RegisterTypeCheck(align, usizeSize, name, old(names).Keys).Ok?
      ensures r.Err? ==> r.error == RegisterTypeCheck(align, usizeSize, name, old(names).Keys).error
      ensures r.Err? ==> names == old(names) && nextId == old(nextId)
      ensures r.Ok? ==> r.value != TYPE_INVALID && r.value !in old(names).Values
      ensures r.Ok? ==> names == old(names)[name := r.value]
    {
      var check := RegisterTypeCheck(align, usizeSize, name, names.Keys);
      if check.Err? {
        return Err(check.error);
      }
      r := Ok(nextId);
      names := names[name := nextId];
      nextId := nextId + 1;
    }
  }
}
