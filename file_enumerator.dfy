/**
 * gio/src/subclass/file_enumerator.rs: a `GFileEnumerator` implemented in
 * Rust. The `next_file` and `close_fn` trampolines turn Rust results into
 * C returns, `parent_next_file` and `parent_close` turn them back; the
 * module's test enumerator (and the `MyFileEnumerator` of the `GFile`
 * tests) walks a list of names with an index that `close` sets to -1.
 */
module FileEnumerator {
  import opened Wrappers
  import opened Text
  import opened FileSubclass

  /**
   * The `next_file` trampoline: the file info, or NULL at the end; NULL
   * on failure too, with the error written only when the caller passed an
   * error location.
   */
  function NextFileTrampoline<T>(res: Result<Option<T>, GError>, hasErrorPtr: bool): (c: CReturn<T>)
    ensures res.Ok? ==> c == CReturn(res.value, None)
    ensures res.Err? ==> c.ret.None? && (c.error.Some? <==> hasErrorPtr)
    ensures res.Err? && hasErrorPtr ==> c.error == Some(res.error)
  {
    match res
    case Ok(info) => CReturn(info, None)
    case Err(e) => CReturn(None, if hasErrorPtr then Some(e) else None)
  }

  /** `parent_next_file`: an error if one was set, otherwise the info or the end (NULL). */
  function ParentNextFile<T>(c: CReturn<T>): (r: Result<Option<T>, GError>)
    ensures c.error.Some? ==> r == Err(c.error.value)
    ensures c.error.None? ==> r == Ok(c.ret)
  {
    match c.error
    case Some(e) => Err(e)
    case None => Ok(c.ret)
  }

  /** Chaining up to a Rust parent's `next_file` gives its result back unchanged. */
  lemma NextFileRoundTrip<T>(res: Result<Option<T>, GError>)
    ensures ParentNextFile(NextFileTrampoline(res, true)) == res
  {
  }

  /** The `close_fn` trampoline: `TRUE` on success, `FALSE` and (given a location) the error on failure. */
  function CloseTrampoline(res: Result<(), GError>, hasErrorPtr: bool): (c: (bool, Option<GError>))
    ensures c.0 <==> res.Ok?
    ensures c.1.Some? <==> res.Err? && hasErrorPtr
    ensures c.1.Some? ==> c.1.value == res.error
  {
    match res
    case Ok(_) => (true, None)
    case Err(e) => (false, if hasErrorPtr then Some(e) else None)
  }

  /**
   * `parent_close`: the debug assertion that `FALSE` comes with an error
   * and `TRUE` without one (`None`, a panic, when it fails), then the
   * error if one was set.
   */
  function ParentClose(isOk: bool, error: Option<GError>): (r: Option<Result<(), GError>>)
    ensures r.None? <==> (isOk == error.Some?)
    ensures r.Some? ==> (r.value.Ok? <==> isOk)
    ensures r.Some? && r.value.Err? ==> r.value.error == error.value
  {
    if isOk == error.Some? then None
    else match error
      case Some(e) => Some(Err(e))
      case None => Some(Ok(()))
  }

  /** Chaining up to a Rust parent's `close` gives its result back and never trips the assertion. */
  lemma CloseRoundTrip(res: Result<(), GError>)
    ensures var (isOk, error) := CloseTrampoline(res, true);
            ParentClose(isOk, error) == Some(res)
  {
    match res
    case Ok(u) =>
      assert u == ();
    case Err(_) =>
  }

  /**
   * An enumerator over a fixed list of names: `index` is the next one to
   * report, or -1 once closed. The two test fixtures word the `Closed`
   * error differently, so the message is a parameter.
   */
  class ChildEnumerator {
    const children: seq<string>
    const closedMessage: string
    var index: int

    predicate Valid()
      reads this
    {
      index == -1 || 0 <= index <= |children|
    }

    /** A new enumerator starts at the first name. */
    constructor (children: seq<string>, closedMessage: string)
      ensures this.children == children && this.closedMessage == closedMessage && index == 0 && Valid()
    {
      this.children := children;
      this.closedMessage := closedMessage;
      index := 0;
    }

    /**
     * `next_file`: `Closed` once closed; the next name, advancing, while
     * names remain; the end (`None`) after the last one, staying there.
     */
    method NextFile() returns (r: Result<Option<string>, GError>)
      requires Valid()
      modifies this
      ensures Valid()
      ensures old(index) == -1 ==> r == Err(GError(Closed, closedMessage)) && index == -1
      ensures 0 <= old(index) < |children| ==> r == Ok(Some(children[old(index)])) && index == old(index) + 1
      ensures old(index) == |children| ==> r == Ok(None) && index == old(index)
    {
      if index == -1 {
        return Err(GError(Closed, closedMessage));
      }
      if index < |children| {
        r := Ok(Some(children[index]));
        index := index + 1;
      } else {
        r := Ok(None);
      }
    }

    /** `close`: always succeeds and leaves the enumerator closed. */
    method Close() returns (r: Result<(), GError>)
      modifies this
      ensures index == -1 && r.Ok? && Valid()
    {
      index := -1;
      r := Ok(());
    }
  }

  /**
   * Calling `next_file` until the end reports every remaining name once,
   * in order, and then the end.
   */
  method Drain(e: ChildEnumerator) returns (names: seq<string>)
    requires e.Valid() && e.index >= 0
    modifies e
    ensures names == old(e.children[e.index..])
    ensures e.index == |e.children|
  {
    names := [];
    ghost var start := e.index;
    while true
      invariant e.Valid() && start <= e.index
      invariant names == e.children[start..e.index]
      decreases |e.children| - e.index
    {
      var r := e.NextFile();
      if r.Err? || r.value.None? {
        return;
      }
      names := names + [r.value.value];
    }
  }

  /** `format!("file{}", i)`. */
  function TestName(i: nat): string {
    "file" + NatToString(i)
  }

  /** The names of the module's test enumerator: `file0` … `file9`. */
  function TestNames(): (names: seq<string>)
    ensures |names| == 10
    ensures forall i :: 0 <= i < 10 ==> names[i] == TestName(i)
  {
    seq(10, i requires 0 <= i < 10 => TestName(i))
  }

  /** The test names are pairwise different, so each `next_file` reports a new file. */
  lemma TestNamesDistinct(i: nat, j: nat)
    requires i < 10 && j < 10 && TestNames()[i] == TestNames()[j]
    ensures i == j
  {
    assert NatToString(i) == TestNames()[i][4..];
    assert NatToString(j) == TestNames()[j][4..];
    NatToStringInjective(i, j);
  }

  /**
   * `test_close`: five names are reported, then `close` succeeds and the
   * next call fails with `Closed`.
   */
  method CloseMidway() returns (first: seq<string>, closed: Result<(), GError>, after: Result<Option<string>, GError>)
    ensures first == TestNames()[..5]
    ensures closed.Ok? && after == Err(GError(Closed, "Closed"))
  {
    var e := new ChildEnumerator(TestNames(), "Closed");
    first := [];
    var i := 0;
    while i < 5
      invariant 0 <= i <= 5 && e.index == i && e.children == TestNames()
      invariant first == TestNames()[..i]
    {
      var r := e.NextFile();
      first := first + [r.value.value];
      i := i + 1;
    }
    closed := e.Close();
    after := e.NextFile();
  }
}
