/**
 * Main-loop sources (glib/src/source.rs): source ids, process ids,
 * priorities, the `Continue` return value of source callbacks and the
 * once-wrapper that turns a run-once closure into a source callback.
 */
module Source {
  import opened Wrappers
  import Translate

  /** `SourceId` holds a non-zero `u32`. */
  type SourceId = n: nat | 0 < n < 0x1_0000_0000 witness 1

  /** `SourceId::from_glib`: asserts the id is non-zero (`None` is that panic). */
  function SourceIdFromGlib(val: nat): (r: Option<SourceId>)
    requires val < 0x1_0000_0000
    ensures r.None? <==> val == 0
    ensures r.Some? ==> r.value == val
  {
    if val == 0 then None else Some(val)
  }

  /** `SourceId::as_raw`. */
  function SourceIdAsRaw(id: SourceId): (val: nat)
    ensures val < 0x1_0000_0000 && SourceIdFromGlib(val) == Some(id)
  {
    id
  }

  /** `Pid` wraps a `GPid` unchanged. */
  datatype Pid = Pid(raw: int)

  function PidIntoGlib(p: Pid): int { p.raw }

  function PidFromGlib(val: int): Pid { Pid(val) }

  lemma PidRoundTrip(p: Pid, val: int)
    ensures PidFromGlib(PidIntoGlib(p)) == p
    ensures PidIntoGlib(PidFromGlib(val)) == val
  {
  }

  /** `Continue(keep)`: keep the callback attached (`true`) or drop it. */
  datatype Continue = Continue(keep: bool)

  /** `Continue::into_glib`: the gboolean of the flag. */
  function ContinueIntoGlib(c: Continue): (g: int)
    ensures g == Translate.GTRUE <==> c.keep
    ensures g == Translate.GFALSE <==> !c.keep
  {
    Translate.BoolToGlib(c.keep)
  }

  /** `Priority` wraps an `i32`; the constants are GLib's `G_PRIORITY_*`. */
  datatype Priority = Priority(raw: int)

  const PRIORITY_HIGH := Priority(-100)
  const PRIORITY_DEFAULT := Priority(0)
  const PRIORITY_HIGH_IDLE := Priority(100)
  const PRIORITY_DEFAULT_IDLE := Priority(200)
  const PRIORITY_LOW := Priority(300)

  /** `Priority::default()`; smaller values run first. */
  function DefaultPriority(): (p: Priority)
    ensures p == PRIORITY_DEFAULT
    ensures PRIORITY_HIGH.raw < p.raw < PRIORITY_HIGH_IDLE.raw < PRIORITY_DEFAULT_IDLE.raw < PRIORITY_LOW.raw
  {
    PRIORITY_DEFAULT
  }

  function PriorityIntoGlib(p: Priority): int { p.raw }

  function PriorityFromGlib(val: int): Priority { Priority(val) }

  lemma PriorityRoundTrip(p: Priority, val: int)
    ensures PriorityFromGlib(PriorityIntoGlib(p)) == p
    ensures PriorityIntoGlib(PriorityFromGlib(val)) == val
  {
  }

  /**
   * One call of a once-wrapper whose closure slot holds `pending`: the slot is
   * taken and the closure run, or, when it is already empty, the call panics
   * (`ran` is `None`).
   */
  datatype OnceStep<F> = OnceStep(ran: Option<F>, pending: Option<F>)

  function OnceCall<F>(pending: Option<F>): (s: OnceStep<F>)
    ensures s.pending.None?
    ensures s.ran == pending
  {
    OnceStep(pending, None)
  }

  /** The closures run by `n` successive calls, and how many of the calls panic. */
  function OnceRuns<F>(pending: Option<F>, n: nat): seq<F>
    decreases n
  {
    if n == 0 then []
    else
      var s := OnceCall(pending);
      (match s.ran case Some(f) => [f] case None => []) + OnceRuns(s.pending, n - 1)
  }

  function OncePanics<F>(pending: Option<F>, n: nat): nat
    decreases n
  {
    if n == 0 then 0
    else
      var s := OnceCall(pending);
      (if s.ran.None? then 1 else 0) + OncePanics(s.pending, n - 1)
  }

  lemma {:induction false} EmptyOnceAlwaysPanics<F>(n: nat)
    ensures OnceRuns<F>(None, n) == []
    ensures OncePanics<F>(None, n) == n
    decreases n
  {
    if n > 0 {
      EmptyOnceAlwaysPanics<F>(n - 1);
    }
  }

  /**
   * Calling a fresh once-wrapper `n` times runs the closure exactly once
   * (when `n > 0`) and every call after the first panics.
   */
  lemma {:induction false} OnceRunsExactlyOnce<F>(f: F, n: nat)
    requires n > 0
    ensures OnceRuns(Some(f), n) == [f]
    ensures OncePanics(Some(f), n) == n - 1
  {
    EmptyOnceAlwaysPanics<F>(n - 1);
  }

  /**
   * The closure that `fnmut_callback_wrapper` and `fnmut_callback_wrapper_local`
   * build: it owns `Some(func)`, takes it on the first call, runs it and
   * returns `stop` (`Continue(false)` here, `ControlFlow::Break` in glib-unix).
   * `ran` records the closures run so far.
   */
  class OnceWrapper<F, R> {
    var pending: Option<F>
    var ran: seq<F>
    const stop: R

    constructor (func: F, stop: R)
      ensures pending == Some(func) && ran == [] && this.stop == stop
    {
      pending := Some(func);
      ran := [];
      this.stop := stop;
    }

    /** Call the closure once; `None` is the `expect` panic on a second call. */
    method Call() returns (r: Option<R>)
      modifies this
      ensures var s := OnceCall(old(pending));
        pending == s.pending &&
        (s.ran.Some? ==> r == Some(stop) && ran == old(ran) + [s.ran.value]) &&
        (s.ran.None? ==> r.None? && ran == old(ran))
    {
      match pending
      case None =>
        r := None;
      case Some(f) =>
        pending := None;
        ran := ran + [f];
        r := Some(stop);
    }
  }

  /** `fnmut_callback_wrapper` / `fnmut_callback_wrapper_local`. */
  method FnmutCallbackWrapper<F>(func: F) returns (w: OnceWrapper<F, Continue>)
    ensures fresh(w)
    ensures w.pending == Some(func) && w.ran == [] && w.stop == Continue(false)
  {
    w := new OnceWrapper(func, Continue(false));
  }

  /** Two calls in a row: the first runs the closure, the second panics. */
  method CallTwice<F>(func: F) returns (first: Option<Continue>, second: Option<Continue>, ran: seq<F>)
    ensures first == Some(Continue(false)) && second.None? && ran == [func]
  {
    var w := FnmutCallbackWrapper(func);
    first := w.Call();
    second := w.Call();
    ran := w.ran;
  }
}
