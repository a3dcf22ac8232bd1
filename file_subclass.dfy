/**
 * gio/src/subclass/file.rs: how a `GFile` implemented in Rust chains up
 * to its parent interface and how its C trampolines report results.
 * Each `parent_*` function calls the parent's virtual function when there
 * is one; when there is none it falls back by a rule of its own: an
 * error, an empty answer, another operation, or a panic.
 *
 * A call into C is modelled by what it returns: the returned object
 * (`None` for NULL) and the error it set.
 */
module FileSubclass {
  import opened Wrappers

  /** The `IOErrorEnum` kinds the modelled code raises, and any other as its code. */
  datatype IOErrorKind =
    | NotSupported | NotFound | InvalidFilename | InvalidArgument | Closed | Exists
    | IsDirectory | NotDirectory | NotRegularFile | WouldMerge | WouldRecurse
    | OtherKind(code: int)

  datatype GError = GError(kind: IOErrorKind, message: string)

  /** What a C virtual function returns: an object or NULL, and the error it set (if any). */
  datatype CReturn<T> = CReturn(ret: Option<T>, error: Option<GError>)

  /**
   * Reading a parent's answer: `Ok` when no error was set, the error
   * otherwise. A NULL object without an error is not a valid answer and
   * is the `None` (a panic).
   */
  function FromParent<T>(c: CReturn<T>): (r: Option<Result<T, GError>>)
    ensures c.error.Some? ==> r == Some(Err(c.error.value))
    ensures c.error.None? ==> (r.Some? <==> c.ret.Some?)
    ensures c.error.None? && c.ret.Some? ==> r == Some(Ok(c.ret.value))
  {
    match c.error
    case Some(e) => Some(Err(e))
    case None => if c.ret.Some? then Some(Ok(c.ret.value)) else None
  }

  /**
   * An object-returning trampoline (`file_enumerate_children` and its
   * siblings): the object on success; NULL on failure, with the error
   * written only when the caller passed an error location.
   */
  function Trampoline<T>(res: Result<T, GError>, hasErrorPtr: bool): (c: CReturn<T>)
    ensures res.Ok? ==> c == CReturn(Some(res.value), None)
    ensures res.Err? ==> c.ret.None? && (c.error.Some? <==> hasErrorPtr)
    ensures res.Err? && hasErrorPtr ==> c.error == Some(res.error)
  {
    match res
    case Ok(v) => CReturn(Some(v), None)
    case Err(e) => CReturn(None, if hasErrorPtr then Some(e) else None)
  }

  /**
   * A Rust parent seen through its trampoline gives its result back
   * unchanged to a `parent_*` call, which always passes an error location.
   */
  lemma ChainUpRoundTrip<T>(res: Result<T, GError>)
    ensures FromParent(Trampoline(res, true)) == Some(res)
  {
  }

  /** The operations whose fallback differs from a plain panic. */
  datatype FileOp =
    | EnumerateChildren | QueryInfo | QueryFilesystemInfo | FindEnclosingMount
    | QuerySettableAttributes | QueryWritableNamespaces | MonitorFile
    | SetDisplayName | GetChildForDisplayName

  /** What a `parent_*` call does when the parent interface lacks the function. */
  datatype Fallback = Fails(error: GError) | EmptyList | Panics

  const NOT_SUPPORTED := GError(NotSupported, "Operation not supported")

  function MissingParent(op: FileOp): (f: Fallback)
    ensures op in {EnumerateChildren, QueryInfo, QueryFilesystemInfo} ==> f == Fails(NOT_SUPPORTED)
    ensures op == FindEnclosingMount ==> f == Fails(GError(NotFound, "Containing mount does not exist"))
    ensures op in {QuerySettableAttributes, QueryWritableNamespaces} ==> f == EmptyList
    ensures op in {MonitorFile, SetDisplayName, GetChildForDisplayName} ==> f == Panics
  {
    match op
    case EnumerateChildren => Fails(NOT_SUPPORTED)
    case QueryInfo => Fails(NOT_SUPPORTED)
    case QueryFilesystemInfo => Fails(NOT_SUPPORTED)
    case FindEnclosingMount => Fails(GError(NotFound, "Containing mount does not exist"))
    case QuerySettableAttributes => EmptyList
    case QueryWritableNamespaces => EmptyList
    case MonitorFile => Panics
    case SetDisplayName => Panics
    case GetChildForDisplayName => Panics
  }

  /**
   * A `parent_*` call whose answer is a list of `A` (`None` is a panic):
   * the parent's answer when it has the function, otherwise the fallback
   * of `op`, with an empty list for `EmptyList`.
   */
  function ParentList<A>(op: FileOp, parent: Option<CReturn<seq<A>>>): (r: Option<Result<seq<A>, GError>>)
    ensures parent.Some? ==> r == FromParent(parent.value)
    ensures parent.None? ==> (r.None? <==> MissingParent(op).Panics?)
    ensures parent.None? && MissingParent(op).EmptyList? ==> r == Some(Ok([]))
    ensures parent.None? && MissingParent(op).Fails? ==> r == Some(Err(MissingParent(op).error))
  {
    match parent
    case Some(c) => FromParent(c)
    case None =>
      match MissingParent(op)
      case Fails(e) => Some(Err(e))
      case EmptyList => Some(Ok([]))
      case Panics => None
  }

  /**
   * A `parent_*` call whose answer is one object: the parent's answer when
   * it has the function, otherwise the fallback error of `op`, or a panic.
   * No object operation falls back to an empty answer.
   */
  function ParentObject<T>(op: FileOp, parent: Option<CReturn<T>>): (r: Option<Result<T, GError>>)
    requires !MissingParent(op).EmptyList?
    ensures parent.Some? ==> r == FromParent(parent.value)
    ensures parent.None? ==> (r.None? <==> MissingParent(op).Panics?)
    ensures parent.None? && MissingParent(op).Fails? ==> r == Some(Err(MissingParent(op).error))
  {
    match parent
    case Some(c) => FromParent(c)
    case None =>
      match MissingParent(op)
      case Fails(e) => Some(Err(e))
      case Panics => None
  }

  /**
   * `parent_query_exists`: the parent's answer, or else whether
   * `query_info("standard::type")` (given as its result) succeeds.
   */
  function ParentQueryExists<I>(parent: Option<bool>, standardTypeInfo: Result<I, GError>): (exists_: bool)
    ensures parent.Some? ==> exists_ == parent.value
    ensures parent.None? ==> (exists_ <==> standardTypeInfo.Ok?)
  {
    match parent
    case Some(b) => b
    case None => standardTypeInfo.Ok?
  }

  /** The attribute list `parent_query_exists` falls back to querying. */
  const STANDARD_TYPE := "standard::type"

  /** The asynchronous result handed to a `_finish` function. */
  datatype AsyncResult<T> = FileTask(result: Result<T, GError>) | OtherResult

  /**
   * `parent_mount_mountable_finish`: the parent's answer; without a
   * parent function, the result of a `Task<File>`; with any other result,
   * a panic.
   */
  function ParentMountMountableFinish<T>(parent: Option<CReturn<T>>, res: AsyncResult<T>): (r: Option<Result<T, GError>>)
    ensures parent.Some? ==> r == FromParent(parent.value)
    ensures parent.None? && res.FileTask? ==> r == Some(res.result)
    ensures parent.None? && res.OtherResult? ==> r.None?
  {
    match parent
    case Some(c) => FromParent(c)
    case None =>
      match res
      case FileTask(result) => Some(result)
      case OtherResult => None
  }

  /** Which function an `*_with_operation` call ends up in. */
  datatype Target = ParentWithOperation | OwnWithoutOperation

  /**
   * `parent_unmount_mountable_with_operation` and
   * `parent_eject_mountable_with_operation`: the parent's function if it
   * has one, else the object's own `unmount_mountable`/`eject_mountable`,
   * without the mount operation.
   */
  function WithOperationTarget(parentHasFunction: bool): (t: Target)
    ensures t == ParentWithOperation <==> parentHasFunction
  {
    if parentHasFunction then ParentWithOperation else OwnWithoutOperation
  }

  /**
   * `parent_unmount_mountable_with_operation_finish` and the eject
   * counterpart: the parent's answer (`TRUE`/`FALSE` with an error) if it
   * has the function, else what the object's own `*_finish` answers.
   */
  function ParentWithOperationFinish(parent: Option<(bool, Option<GError>)>, ownFinish: Result<(), GError>)
    : (r: Result<(), GError>)
    ensures parent.None? ==> r == ownFinish
    ensures parent.Some? ==> (r.Ok? <==> parent.value.1.None?)
    ensures parent.Some? && parent.value.1.Some? ==> r == Err(parent.value.1.value)
  {
    match parent
    case None => ownFinish
    case Some((_, error)) => if error.None? then Ok(()) else Err(error.value)
  }

  /** What the display-name trampoline did. */
  datatype DisplayNameCall<T> = DisplayNameCall(calledImpl: bool, out: CReturn<T>)

  /**
   * `file_get_child_for_display_name`: a display name that does not
   * convert to a file name is refused with `InvalidFilename` (written only
   * when there is an error location) and NULL, before the implementation
   * is asked; otherwise the implementation's result through the usual
   * trampoline.
   */
  function DisplayNameTrampoline<T>(convertible: bool, implResult: Result<T, GError>, hasErrorPtr: bool)
    : (r: DisplayNameCall<T>)
    ensures !convertible ==> !r.calledImpl && r.out.ret.None?
    ensures !convertible ==> r.out.error == (if hasErrorPtr then Some(GError(InvalidFilename, "Invalid filename")) else None)
    ensures convertible ==> r.calledImpl && r.out == Trampoline(implResult, hasErrorPtr)
  {
    if !convertible then
      DisplayNameCall(false, CReturn(None, if hasErrorPtr then Some(GError(InvalidFilename, "Invalid filename")) else None))
    else
      DisplayNameCall(true, Trampoline(implResult, hasErrorPtr))
  }
}
