/**
 * gio/src/subclass/application.rs: the `ArgumentList` that a
 * `GApplication` subclass sees in `local_command_line` (a Rust copy of a
 * NULL-terminated C string vector that must stay in step with it), and
 * the translations between the Rust and C forms of `local_command_line`
 * and `handle_local_options`. `ExitCode` is treated as the `i32` it
 * converts to and from.
 */
module Application {
  import opened Wrappers

  type CString = seq<char>

  /** `gboolean` values. */
  const GFALSE: int := 0
  const GTRUE: int := 1

  /**
   * `g_strv_length`: the number of entries before the first NULL (or the
   * whole vector if it has none).
   */
  function StrvLen(raw: seq<Option<CString>>): (n: nat)
    ensures n <= |raw|
    ensures forall i :: 0 <= i < n ==> raw[i].Some?
    ensures n < |raw| ==> raw[n].None?
  {
    if |raw| == 0 || raw[0].None? then 0 else 1 + StrvLen(raw[1..])
  }

  /** The vector ends in a NULL, as every C string vector does. */
  predicate Terminated(raw: seq<Option<CString>>) {
    StrvLen(raw) < |raw|
  }

  /** `from_glib_none` of a string vector: the strings before the terminator, in order. */
  function Strv(raw: seq<Option<CString>>): (items: seq<CString>)
    ensures |items| == StrvLen(raw)
    ensures forall i :: 0 <= i < |items| ==> raw[i] == Some(items[i])
  {
    seq(StrvLen(raw), i requires 0 <= i < StrvLen(raw) => raw[i].value)
  }

  /**
   * The raw vector after `remove(idx)` with `n` entries: the entry at `idx`
   * dropped, the rest up to the old terminator moved one cell down, and a
   * NULL written over the last of them. Cells past `n` are untouched.
   */
  function ShiftOut(raw: seq<Option<CString>>, idx: nat, n: nat): (r: seq<Option<CString>>)
    requires idx < n < |raw|
    ensures |r| == |raw|
    ensures forall i :: 0 <= i < idx ==> r[i] == raw[i]
    ensures forall i :: idx <= i < n - 1 ==> r[i] == raw[i + 1]
    ensures r[n - 1] == None
    ensures forall i :: n <= i < |raw| ==> r[i] == raw[i]
  {
    raw[..idx] + raw[idx + 1..n] + [None] + raw[n..]
  }

  /**
   * Removing entry `idx` from the raw vector removes item `idx` from the
   * strings it denotes and keeps it terminated: `remove` keeps the raw
   * vector and the item list in step.
   */
  lemma StrvShiftOut(raw: seq<Option<CString>>, idx: nat)
    requires Terminated(raw) && idx < StrvLen(raw)
    ensures Terminated(ShiftOut(raw, idx, StrvLen(raw)))
    ensures Strv(ShiftOut(raw, idx, StrvLen(raw))) == Strv(raw)[..idx] + Strv(raw)[idx + 1..]
  {
    var n := StrvLen(raw);
    var r := ShiftOut(raw, idx, n);
    ShiftOutLen(raw, idx);
    var items, old_items := Strv(r), Strv(raw);
    var kept := old_items[..idx] + old_items[idx + 1..];
    assert |items| == |kept| == n - 1;
    forall i | 0 <= i < n - 1
      ensures items[i] == kept[i]
    {
      if i < idx {
        assert r[i] == raw[i] == Some(old_items[i]);
      } else {
        assert r[i] == raw[i + 1] == Some(old_items[i + 1]);
      }
    }
  }

  /** After the shift the strings end one cell earlier. */
  lemma ShiftOutLen(raw: seq<Option<CString>>, idx: nat)
    requires Terminated(raw) && idx < StrvLen(raw)
    ensures StrvLen(ShiftOut(raw, idx, StrvLen(raw))) == StrvLen(raw) - 1
  {
    var n := StrvLen(raw);
    var r := ShiftOut(raw, idx, n);
    forall i | 0 <= i < n - 1
      ensures r[i].Some?
    {
      if i < idx {
        assert r[i] == raw[i];
      } else {
        assert r[i] == raw[i + 1];
      }
    }
    StrvLenAt(r, n - 1);
  }

  /** A vector whose first `k` cells are strings and whose cell `k` is NULL has length `k`. */
  lemma {:induction false} StrvLenAt(raw: seq<Option<CString>>, k: nat)
    requires k < |raw| && raw[k].None?
    requires forall i :: 0 <= i < k ==> raw[i].Some?
    ensures StrvLen(raw) == k
  {
    if k > 0 {
      StrvLenAt(raw[1..], k - 1);
    }
  }

  /**
   * `ArgumentList`: `raw` is the caller's `char***` (its vector, changed
   * in place), `items` the Rust copy.
   */
  class ArgumentList {
    const raw: array<Option<CString>>
    var items: seq<CString>

    /** The Rust copy reflects the C vector. */
    predicate InSync()
      reads this, raw
    {
      Terminated(raw[..]) && items == Strv(raw[..])
    }

    /** `ArgumentList::new`: copies the strings out of the vector. */
    constructor (arguments: array<Option<CString>>)
      requires Terminated(arguments[..])
      ensures raw == arguments && InSync()
    {
      raw := arguments;
      items := Strv(arguments[..]);
    }

    /** `refresh`: re-reads the strings after C code may have changed the vector. */
    method Refresh()
      modifies this
      ensures items == Strv(raw[..])
      ensures Terminated(raw[..]) ==> InSync()
    {
      items := Strv(raw[..]);
    }

    /**
     * `remove`: panics (`false`, nothing changed) when the vector's length
     * is not the item count or `idx` is past the end; otherwise drops item
     * `idx` from both forms, freeing nothing that is still referenced.
     */
    method Remove(idx: nat) returns (ok: bool)
      requires Terminated(raw[..])
      modifies this, raw
      ensures ok <==> StrvLen(old(raw[..])) == |old(items)| && idx < |old(items)|
      ensures ok ==> items == old(items)[..idx] + old(items)[idx + 1..]
      ensures ok ==> raw[..] == ShiftOut(old(raw[..]), idx, StrvLen(old(raw[..])))
      ensures !ok ==> items == old(items) && raw[..] == old(raw[..])
      ensures old(InSync()) ==> InSync()
    {
      var nArgs := StrvLen(raw[..]);
      if nArgs != |items| || idx >= nArgs {
        return false;
      }
      ghost var before := raw[..];
      var remaining := items[..idx] + items[idx + 1..];
      items := remaining;
      var i := idx;
      while i < nArgs - 1
        invariant idx <= i <= nArgs - 1
        invariant items == remaining
        invariant forall j :: 0 <= j < idx ==> raw[j] == before[j]
        invariant forall j :: idx <= j < i ==> raw[j] == before[j + 1]
        invariant forall j :: i <= j < raw.Length ==> raw[j] == before[j]
      {
        raw[i] := raw[i + 1];
        i := i + 1;
      }
      raw[nArgs - 1] := None;
      assert raw[..] == ShiftOut(before, idx, nArgs);
      StrvShiftOut(before, idx);
      ok := true;
    }
  }

  /**
   * `parent_local_command_line` after the parent's C function returned
   * `res` and wrote `exitStatus`: `None` for `FALSE` (keep processing),
   * the exit status otherwise.
   */
  function ParentLocalCommandLine(res: int, exitStatus: int): (r: Option<int>)
    ensures r.None? <==> res == GFALSE
    ensures r.Some? ==> r.value == exitStatus
  {
    if res == GFALSE then None else Some(exitStatus)
  }

  /**
   * The `local_command_line` trampoline: the subclass's answer `res` as
   * the C return value and the exit status behind the out pointer, which
   * keeps `exitStatus` when there is nothing to report.
   */
  function LocalCommandLineTrampoline(res: Option<int>, exitStatus: int): (r: (int, int))
    ensures r.0 == GTRUE <==> res.Some?
    ensures r.0 == GFALSE <==> res.None?
    ensures res.Some? ==> r.1 == res.value
    ensures res.None? ==> r.1 == exitStatus
  {
    match res
    case Some(ret) => (GTRUE, ret)
    case None => (GFALSE, exitStatus)
  }

  /**
   * A subclass that chains up from the trampoline gets back what it
   * answered: the two translations are inverse.
   */
  lemma LocalCommandLineRoundTrip(res: Option<int>, exitStatus: int)
    ensures var (ret, status) := LocalCommandLineTrampoline(res, exitStatus);
            ParentLocalCommandLine(ret, status) == res
  {
  }

  /**
   * `parent_handle_local_options`: the parent's answer, or -1 ("continue
   * with the default handling") when the parent class has no handler.
   */
  function ParentHandleLocalOptions(parentHandler: Option<int>): (r: int)
    ensures parentHandler.None? ==> r == -1
    ensures parentHandler.Some? ==> r == parentHandler.value
  {
    match parentHandler
    case Some(code) => code
    case None => -1
  }
}
