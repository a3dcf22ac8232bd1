/**
 * The `MyFile` fixture of gio/src/subclass/file/tests.rs: a `GFile`
 * implemented in Rust over in-memory state (a path, extended attributes,
 * child names, a file type and an existence state), against which the
 * chaining-up behaviour of `MyCustomFile` is compared. Its operations
 * update the type and state in place.
 */
module MyFileFixture {
  import opened Wrappers
  import opened Text
  import opened FileSubclass
  import FileEnumerator

  /** `GFileType`. */
  datatype FileType = Unknown | Regular | Directory | SymbolicLink | Special | Shortcut | Mountable

  /** `MyFileState`, stored as a `u8` property. */
  datatype MyFileState = DoesNotExist | Exist | Deleted | Trashed

  /** `From<&MyFileState> for u8`. */
  function StateToByte(s: MyFileState): (b: int)
    ensures 0 <= b < 4
  {
    match s
    case DoesNotExist => 0
    case Exist => 1
    case Deleted => 2
    case Trashed => 3
  }

  /** `From<u8> for MyFileState`: 1, 2 and 3 name a state, every other byte is `DoesNotExist`. */
  function StateFromByte(b: int): (s: MyFileState)
    requires 0 <= b < 256
    ensures s != DoesNotExist ==> 1 <= b <= 3
  {
    match b
    case 1 => Exist
    case 2 => Deleted
    case 3 => Trashed
    case _ => DoesNotExist
  }

  /** Every state survives the trip through its byte. */
  lemma StateRoundTrip(s: MyFileState)
    ensures StateFromByte(StateToByte(s)) == s
  {
  }

  /** The byte codec collapses every byte outside 0..3 onto `DoesNotExist`, and is exact on 0..3. */
  lemma ByteRoundTrip(b: int)
    requires 0 <= b < 256
    ensures StateToByte(StateFromByte(b)) == (if b <= 3 then b else 0)
  {
  }

  /** `split_once('=').unwrap_or((entry, ""))`: the key and value of an extended-attribute entry. */
  function SplitEntry(entry: string): (kv: (string, string))
    ensures '=' !in kv.0
    ensures kv.0 == entry || kv.0 + "=" + kv.1 == entry
  {
    match FirstIndex(entry, '=')
    case None => (entry, "")
    case Some(i) =>
      assert entry == entry[..i] + "=" + entry[i + 1..];
      (entry[..i], entry[i + 1..])
  }

  /**
   * How `query_info` reads one requested attribute: whether it asks for
   * the name, and what it adds to the extended-attribute request list;
   * `None` for an attribute it does not support.
   */
  function Classify(attribute: string): (r: Option<(bool, string)>)
    ensures r.Some? <==>
      attribute in {"*", "standard::*", "standard::name"} || StartsWith(attribute, "xattr::")
    ensures r.Some? && r.value.0 <==> attribute in {"*", "standard::*", "standard::name"}
  {
    if attribute == "*" then Some((true, "*"))
    else if attribute == "standard::*" || attribute == "standard::name" then Some((true, ""))
    else if StartsWith(attribute, "xattr::") then Some((false, attribute))
    else None
  }

  /**
   * The request a comma-separated attribute list amounts to: whether the
   * name is wanted and the extended-attribute entries in order, or the
   * first unsupported attribute.
   */
  function Request(attributes: seq<string>): (r: Result<(bool, seq<string>), string>)
    ensures r.Ok? ==> |r.value.1| == |attributes|
    ensures r.Err? ==> r.error in attributes && Classify(r.error).None?
    ensures r.Ok? <==> forall a :: a in attributes ==> Classify(a).Some?
  {
    if |attributes| == 0 then Ok((false, []))
    else
      var last := attributes[|attributes| - 1];
      assert forall a :: a in attributes <==> a in attributes[..|attributes| - 1] || a == last;
      match Request(attributes[..|attributes| - 1])
      case Err(a) => Err(a)
      case Ok((name, xattr)) =>
        match Classify(last)
        case None => Err(last)
        case Some((n, x)) => Ok((name || n, xattr + [x]))
  }

  /** The parts of a `FileInfo` this fixture sets. */
  datatype FileInfo = FileInfo(name: Option<string>, attributes: map<string, string>)

  /**
   * The extended attributes reported for a request: each stored entry's
   * key and value, when every one is wanted or when the entry passes the
   * filter `entry.contains(key)` (the filter as the source writes it).
   */
  function ReportedXattrs(entries: seq<string>, all: bool): map<string, string>
  {
    if |entries| == 0 then map[]
    else
      var previous := ReportedXattrs(entries[..|entries| - 1], all);
      var entry := entries[|entries| - 1];
      var (key, value) := SplitEntry(entry);
      if all || Contains(entry, key) then previous[key := value] else previous
  }

  /** An entry always contains its own key, which is a prefix of it. */
  lemma EntryContainsKey(entry: string)
    ensures Contains(entry, SplitEntry(entry).0)
  {
    var key := SplitEntry(entry).0;
    if key != entry {
      assert entry[..|key|] == key by {
        assert key + "=" + SplitEntry(entry).1 == entry;
      }
    }
    assert OccursAt(entry, key, 0);
  }

  /**
   * The filter never drops an entry: whatever extended attributes were
   * requested, every stored one is reported, exactly as if all were
   * requested.
   */
  lemma {:induction false} XattrFilterKeepsAll(entries: seq<string>)
    ensures ReportedXattrs(entries, false) == ReportedXattrs(entries, true)
  {
    if |entries| > 0 {
      XattrFilterKeepsAll(entries[..|entries| - 1]);
      EntryContainsKey(entries[|entries| - 1]);
    }
  }

  /** The last path component, or `"none"` when there is none. */
  function FileName(path: seq<string>): string {
    if |path| == 0 then "none" else path[|path| - 1]
  }

  /** The copy/move outcome when it fails, by kind; `None` when it goes ahead. */
  function TransferRule(sourceExists: bool, sourceType: FileType, destinationExists: bool,
                        destinationType: FileType, overwrite: bool): (r: Option<IOErrorKind>)
  {
    if !sourceExists then Some(NotFound)
    else if destinationExists && !overwrite then Some(Exists)
    else if sourceType == Regular && destinationExists && destinationType == Directory then Some(IsDirectory)
    else if sourceType == Directory && destinationExists && destinationType == Directory then Some(WouldMerge)
    else if sourceType == Directory && !destinationExists then Some(WouldRecurse)
    else if sourceType == Directory && destinationExists && destinationType == Regular then Some(WouldRecurse)
    else None
  }

  /**
   * A copy or move goes ahead exactly when the source exists, an existing
   * destination may be overwritten, a directory is not overwritten by a
   * regular file, and a directory source lands only on an existing
   * destination that is neither a directory nor a regular file.
   */
  lemma TransferAllowed(sourceExists: bool, sourceType: FileType, destinationExists: bool,
                        destinationType: FileType, overwrite: bool)
    ensures TransferRule(sourceExists, sourceType, destinationExists, destinationType, overwrite).None? <==>
      && sourceExists
      && (destinationExists ==> overwrite)
      && !(sourceType == Regular && destinationExists && destinationType == Directory)
      && (sourceType == Directory ==> destinationExists && destinationType !in {Directory, Regular})
  {
  }

  /** A copy or move that fails for a missing source fails for nothing else first. */
  lemma TransferRuleOrder(sourceType: FileType, destinationExists: bool, destinationType: FileType, overwrite: bool)
    ensures TransferRule(false, sourceType, destinationExists, destinationType, overwrite) == Some(NotFound)
    ensures TransferRule(true, sourceType, true, destinationType, false) == Some(Exists)
  {
  }

  function TransferMessage(kind: IOErrorKind): string {
    match kind
    case NotFound => "Source does not exist"
    case Exists => "Destination already exists"
    case IsDirectory => "Cannot overwrite a directory with a file"
    case WouldMerge => "Cannot overwrite a directory with a directory"
    case _ => "Cannot handle recursive copy of source directory"
  }

  class MyFile {
    const path: seq<string>
    const xattrs: seq<string>
    const children: seq<string>
    var fileType: FileType
    var state: MyFileState

    constructor (path: seq<string>, xattrs: seq<string>, children: seq<string>, fileType: FileType, state: MyFileState)
      ensures this.path == path && this.xattrs == xattrs && this.children == children
      ensures this.fileType == fileType && this.state == state
    {
      this.path := path;
      this.xattrs := xattrs;
      this.children := children;
      this.fileType := fileType;
      this.state := state;
    }

    /** `delete`: an existing file becomes `Deleted`; anything else is `NotFound` and unchanged. */
    method Delete() returns (r: Result<(), GError>)
      modifies this
      ensures old(state) == Exist ==> r.Ok? && state == Deleted
      ensures old(state) != Exist ==> r == Err(GError(NotFound, "File does not exist")) && state == old(state)
      ensures fileType == old(fileType)
    {
      if state != Exist {
        return Err(GError(NotFound, "File does not exist"));
      }
      state := Deleted;
      r := Ok(());
    }

    /** `trash`: as `delete`, ending in `Trashed`. */
    method Trash() returns (r: Result<(), GError>)
      modifies this
      ensures old(state) == Exist ==> r.Ok? && state == Trashed
      ensures old(state) != Exist ==> r == Err(GError(NotFound, "File does not exist")) && state == old(state)
      ensures fileType == old(fileType)
    {
      if state != Exist {
        return Err(GError(NotFound, "File does not exist"));
      }
      state := Trashed;
      r := Ok(());
    }

    /**
     * `make_directory` (`SymbolicLink` as the new type:
     * `make_symbolic_link`): `Exists` for an existing file; otherwise the
     * file comes to exist with the new type.
     */
    method Make(newType: FileType) returns (r: Result<(), GError>)
      requires newType == Directory || newType == SymbolicLink
      modifies this
      ensures old(state) == Exist ==>
        r == Err(GError(Exists, "File already exists")) && state == old(state) && fileType == old(fileType)
      ensures old(state) != Exist ==> r.Ok? && state == Exist && fileType == newType
    {
      if state == Exist {
        return Err(GError(Exists, "File already exists"));
      }
      state := Exist;
      fileType := newType;
      r := Ok(());
    }

    /** `enumerate_children`: `NotDirectory` before `NotFound`; otherwise an enumerator over the children. */
    method EnumerateChildren() returns (r: Result<FileEnumerator.ChildEnumerator, GError>)
      ensures fileType != Directory ==> r == Err(GError(NotDirectory, "File is not a directory"))
      ensures fileType == Directory && state != Exist ==> r == Err(GError(NotFound, "File does not exist"))
      ensures fileType == Directory && state == Exist ==>
        r.Ok? && fresh(r.value) && r.value.children == children && r.value.index == 0
        && r.value.closedMessage == "Enumerator is closed"
    {
      if fileType != Directory {
        return Err(GError(NotDirectory, "File is not a directory"));
      }
      if state != Exist {
        return Err(GError(NotFound, "File does not exist"));
      }
      var e := new FileEnumerator.ChildEnumerator(children, "Enumerator is closed");
      r := Ok(e);
    }

    /** `monitor_file`: `NotRegularFile` before `NotFound`; otherwise a monitor. */
    function MonitorFile(): (r: Result<(), GError>)
      reads this
      ensures r.Ok? <==> fileType == Regular && state == Exist
      ensures fileType != Regular ==> r == Err(GError(NotRegularFile, "File is not a file"))
      ensures fileType == Regular && state != Exist ==> r == Err(GError(NotFound, "File does not exist"))
    {
      if fileType != Regular then Err(GError(NotRegularFile, "File is not a file"))
      else if state != Exist then Err(GError(NotFound, "File does not exist"))
      else Ok(())
    }

    /**
     * `query_info`: reads the comma-separated attributes in order, failing
     * with `InvalidArgument` at the first unsupported one; reports the
     * name when asked and, when any extended attribute was asked for, the
     * stored extended attributes.
     */
    method QueryInfo(attributes: string) returns (r: Result<FileInfo, GError>)
      ensures Request(Split(attributes, ',')).Err? ==> r.Err? && r.error.kind == InvalidArgument
      ensures Request(Split(attributes, ',')).Ok? ==> r.Ok?
      ensures r.Ok? ==>
        var (name, xattr) := Request(Split(attributes, ',')).value;
        && r.value.name == (if name then Some(FileName(path)) else None)
        && r.value.attributes == (if |xattr| == 0 then map[] else ReportedXattrs(xattrs, "xattr::*" in xattr))
    {
      var list := Split(attributes, ',');
      var name := false;
      var xattr: seq<string> := [];
      var i := 0;
      while i < |list|
        invariant 0 <= i <= |list|
        invariant Request(list[..i]) == Ok((name, xattr))
      {
        assert list[..i + 1][..i] == list[..i];
        match Classify(list[i])
        case None =>
          assert Request(list[..i + 1]) == Err(list[i]);
          RequestPrefixErr(list, i + 1);
          return Err(GError(InvalidArgument, "Querying attributes " + list[i] + " not supported for MyFile"));
        case Some((n, x)) =>
          name := name || n;
          xattr := xattr + [x];
        i := i + 1;
      }
      assert list[..i] == list;
      var info := FileInfo(if name then Some(FileName(path)) else None, map[]);
      if |xattr| > 0 {
        var all := "xattr::*" in xattr;
        var reported: map<string, string> := map[];
        var j := 0;
        while j < |xattrs|
          invariant 0 <= j <= |xattrs|
          invariant reported == ReportedXattrs(xattrs[..j], all)
        {
          assert xattrs[..j + 1][..j] == xattrs[..j];
          var (key, value) := SplitEntry(xattrs[j]);
          if all || Contains(xattrs[j], key) {
            reported := reported[key := value];
          }
          j := j + 1;
        }
        assert xattrs[..j] == xattrs;
        info := info.(attributes := reported);
      }
      r := Ok(info);
    }
  }

  /** An attribute list whose prefix already fails fails as a whole, at the same attribute. */
  lemma {:induction false} RequestPrefixErr(list: seq<string>, k: nat)
    requires k <= |list| && Request(list[..k]).Err?
    ensures Request(list) == Request(list[..k])
    decreases |list| - k
  {
    if k < |list| {
      assert list[..k + 1][..k] == list[..k];
      RequestPrefixErr(list, k + 1);
    } else {
      assert list[..k] == list;
    }
  }

  /**
   * `copy` and `move_` (the two have the same body): when `TransferRule`
   * lets it go ahead, reports progress 0, 10, …, 90 of 100 to a callback
   * if there is one and makes the destination exist with the source's
   * type; otherwise fails with the rule's error and changes nothing.
   */
  method CopyOrMove(source: MyFile, destination: MyFile, overwrite: bool, hasCallback: bool)
      returns (r: Result<(), GError>, progress: seq<(int, int)>)
    modifies destination
    ensures var rule := TransferRule(old(source.state) == Exist, old(source.fileType),
                                     old(destination.state) == Exist, old(destination.fileType), overwrite);
      rule.Some? ==>
        && r == Err(GError(rule.value, TransferMessage(rule.value)))
        && progress == []
        && destination.state == old(destination.state)
        && destination.fileType == old(destination.fileType)
    ensures var rule := TransferRule(old(source.state) == Exist, old(source.fileType),
                                     old(destination.state) == Exist, old(destination.fileType), overwrite);
      rule.None? ==>
        && r.Ok?
        && destination.state == Exist
        && destination.fileType == old(source.fileType)
        && progress == (if hasCallback then seq(10, i => (i * 10, 100)) else [])
  {
    var sourceType := source.fileType;
    var rule := TransferRule(source.state == Exist, sourceType, destination.state == Exist, destination.fileType, overwrite);
    progress := [];
    if rule.Some? {
      return Err(GError(rule.value, TransferMessage(rule.value))), progress;
    }
    if hasCallback {
      var i := 0;
      while i < 10
        invariant 0 <= i <= 10
        invariant progress == seq(i, k => (k * 10, 100))
      {
        progress := progress + [(i * 10, 100)];
        i := i + 1;
      }
    }
    destination.state := Exist;
    destination.fileType := sourceType;
    r := Ok(());
  }
}
