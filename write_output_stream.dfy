/**
 * gio/src/write_output_stream.rs: a `GOutputStream` (and `GSeekable`)
 * over a Rust `Write` value. The stream holds its writer until it is
 * closed; the writer wrapper latches a panic of the Rust writer so that
 * every later call fails instead of touching the writer again.
 *
 * The Rust writer itself is an opaque value `W`; what one call on it
 * does is given as the sequence of answers its successive attempts
 * produce (`Interrupted` answers are retried by the stream).
 */
module WriteOutputStream {
  import opened Wrappers

  /** The `IOErrorEnum` kinds the stream reports, and errors passed on from the writer. */
  datatype GioError = Closed | InvalidArgument | NotSupported | Io(message: string)

  /** One attempt of a call on the Rust writer. */
  datatype Attempt<T> = Returned(value: T) | Interrupted | Failed(message: string) | Panics

  /** `AnyOrPanic`: the writer, or the panic it raised. */
  datatype AnyOrPanic<W> = Any(writer: W) | Panic

  /** `Writer`: the writer wrapper, with or without a seek function. */
  datatype Writer<W> = Writer(seekable: bool, inner: AnyOrPanic<W>)

  datatype SeekType = Cur | Set | End | UnknownSeekType(code: int)

  /** Some attempt in `attempts` is answered without being retried. */
  predicate Answers<T>(attempts: seq<Attempt<T>>) {
    exists i :: 0 <= i < |attempts| && !attempts[i].Interrupted?
  }

  /** The first attempt that is not `Interrupted`: the one whose answer the stream reports. */
  function {:induction false} FirstAnswer<T>(attempts: seq<Attempt<T>>): (i: nat)
    requires Answers(attempts)
    ensures i < |attempts| && !attempts[i].Interrupted?
    ensures forall m :: 0 <= m < i ==> attempts[m].Interrupted?
  {
    if !attempts[0].Interrupted? then 0
    else
      var w :| 0 <= w < |attempts| && !attempts[w].Interrupted?;
      assert attempts[1..][w - 1] == attempts[w];
      var i := FirstAnswer(attempts[1..]);
      assert forall m :: 1 <= m < i + 1 ==> attempts[m] == attempts[1..][m - 1];
      i + 1
  }

  /**
   * A call through `AnyWriter::with_inner`, retried while the writer is
   * interrupted: a latched panic fails at once ("Panicked before"); a
   * panic during the answering attempt is latched and fails ("Panicked");
   * otherwise the first answer that is not `Interrupted` is the result.
   */
  function Drive<W, T>(inner: AnyOrPanic<W>, attempts: seq<Attempt<T>>): (r: (AnyOrPanic<W>, Result<T, GioError>))
    requires inner.Any? ==> Answers(attempts)
  {
    if inner.Panic? then (Panic, Err(Io("Panicked before")))
    else
      match attempts[FirstAnswer(attempts)]
      case Returned(v) => (inner, Ok(v))
      case Failed(m) => (inner, Err(Io(m)))
      case Panics => (Panic, Err(Io("Panicked")))
  }

  /**
   * What a call does to the writer: a latched panic stays latched, a
   * working writer stays as it is unless the answering attempt panicked,
   * and a call succeeds only on a working writer with a `Returned` answer.
   */
  lemma DriveOutcome<W, T>(inner: AnyOrPanic<W>, attempts: seq<Attempt<T>>)
    requires inner.Any? ==> Answers(attempts)
    ensures inner.Panic? ==> Drive(inner, attempts) == (Panic, Err(Io("Panicked before")))
    ensures inner.Any? ==>
      var (after, r) := Drive(inner, attempts);
      var answer := attempts[FirstAnswer(attempts)];
      && (after == Panic <==> answer.Panics?)
      && (after != Panic ==> after == inner)
      && (r.Ok? <==> answer.Returned?)
      && (r.Ok? ==> r.value == answer.value)
  {
  }

  class WriteOutputStream<W> {
    /** `write`: the writer until the stream is closed. */
    var write: Option<Writer<W>>

    /** `new` (seekable: `false`) and `new_seekable` (`true`). */
    constructor (w: W, seekable: bool)
      ensures write == Some(Writer(seekable, Any(w)))
    {
      write := Some(Writer(seekable, Any(w)));
    }

    /** The writer is usable: neither closed nor latched on a panic. */
    predicate Usable()
      reads this
    {
      write.Some? && write.value.inner.Any?
    }

    /** `write`: `Closed` on a closed stream, otherwise the writer's answer, retried on interruption. */
    method Write(buffer: seq<int>, attempts: seq<Attempt<nat>>) returns (r: Result<nat, GioError>)
      requires Usable() ==> Answers(attempts)
      modifies this
      ensures old(write).None? ==> r == Err(Closed) && write == old(write)
      ensures old(write).Some? ==>
        var (inner, res) := Drive(old(write).value.inner, attempts);
        r == res && write == Some(Writer(old(write).value.seekable, inner))
    {
      if write.None? {
        return Err(Closed);
      }
      var inner;
      inner, r := Retry(write.value.inner, attempts);
      write := Some(Writer(write.value.seekable, inner));
    }

    /** `flush`: as `write`, for a flush of the writer. */
    method Flush(attempts: seq<Attempt<()>>) returns (r: Result<(), GioError>)
      requires Usable() ==> Answers(attempts)
      modifies this
      ensures old(write).None? ==> r == Err(Closed) && write == old(write)
      ensures old(write).Some? ==>
        var (inner, res) := Drive(old(write).value.inner, attempts);
        r == res && write == Some(Writer(old(write).value.seekable, inner))
    {
      if write.None? {
        return Err(Closed);
      }
      var inner;
      inner, r := Retry(write.value.inner, attempts);
      write := Some(Writer(write.value.seekable, inner));
    }

    /** `close`: drops the writer and succeeds, whatever the state. */
    method Close() returns (r: Result<(), GioError>)
      modifies this
      ensures write.None? && r.Ok?
    {
      write := None;
      r := Ok(());
    }

    /** `tell`: the position is never known. */
    function Tell(): (pos: int)
      ensures pos == -1
    {
      -1
    }

    /** `can_seek`: exactly when the stream is open over a seekable writer. */
    function CanSeek(): (r: bool)
      reads this
      ensures r <==> write.Some? && write.value.seekable
    {
      match write
      case Some(Writer(seekable, _)) => seekable
      case None => false
    }

    /**
     * `seek`: `NotSupported` unless `CanSeek()`; then `InvalidArgument`
     * for a negative absolute offset, a panic (`None`) for a seek type
     * the stream does not know, and otherwise the writer's answer,
     * retried on interruption, without the new position.
     */
    method Seek(offset: int, seekType: SeekType, attempts: seq<Attempt<nat>>) returns (r: Option<Result<(), GioError>>)
      requires Usable() ==> Answers(attempts)
      modifies this
      ensures !old(CanSeek()) ==> r == Some(Err(NotSupported)) && write == old(write)
      ensures old(CanSeek()) && seekType == Set && offset < 0 ==> r == Some(Err(InvalidArgument)) && write == old(write)
      ensures old(CanSeek()) && seekType.UnknownSeekType? ==> r.None?
      ensures old(CanSeek()) && !seekType.UnknownSeekType? && !(seekType == Set && offset < 0) ==>
        var (inner, res) := Drive(old(write).value.inner, attempts);
        && r == Some(if res.Ok? then Ok(()) else Err(res.error))
        && write == Some(Writer(true, inner))
    {
      if !CanSeek() {
        return Some(Err(NotSupported));
      }
      if seekType.UnknownSeekType? {
        return None;
      }
      if seekType == Set && offset < 0 {
        return Some(Err(InvalidArgument));
      }
      var inner, res := Retry(write.value.inner, attempts);
      write := Some(Writer(true, inner));
      r := Some(if res.Ok? then Ok(()) else Err(res.error));
    }

    /** `can_truncate`: never. */
    function CanTruncate(): (r: bool)
      ensures !r
    {
      false
    }

    /** `truncate`: always `NotSupported`. */
    function Truncate(offset: int): (r: Result<(), GioError>)
      ensures r == Err(NotSupported)
    {
      Err(NotSupported)
    }

    /**
     * `close_and_take`: closes the stream and hands back the writer; a
     * panic (`None`) when the stream was already closed or the writer had
     * panicked (the panic is resumed). Either way the stream ends closed.
     */
    method CloseAndTake() returns (r: Option<W>)
      modifies this
      ensures write.None?
      ensures r.Some? <==> old(write).Some? && old(write).value.inner.Any?
      ensures r.Some? ==> r.value == old(write).value.inner.writer
    {
      var inner := write;
      write := None;
      if inner.None? {
        return None;
      }
      var _ := Close();
      match inner.value.inner
      case Any(w) => r := Some(w);
      case Panic => r := None;
    }
  }

  /**
   * The retry loop of `write`, `flush` and `seek`: one attempt through
   * `with_inner` after another until one is not `Interrupted`.
   */
  method Retry<W, T>(inner: AnyOrPanic<W>, attempts: seq<Attempt<T>>) returns (after: AnyOrPanic<W>, r: Result<T, GioError>)
    requires inner.Any? ==> Answers(attempts)
    ensures (after, r) == Drive(inner, attempts)
  {
    if inner.Panic? {
      return Panic, Err(Io("Panicked before"));
    }
    var k := 0;
    ghost var last := FirstAnswer(attempts);
    while true
      invariant 0 <= k <= last
      decreases last - k
    {
      match attempts[k]
      case Interrupted =>
        k := k + 1;
      case Returned(v) =>
        return inner, Ok(v);
      case Failed(m) =>
        return inner, Err(Io(m));
      case Panics =>
        return Panic, Err(Io("Panicked"));
    }
  }

  /** Closing twice is closing once: both succeed and the stream stays closed. */
  method CloseTwice<W>(stream: WriteOutputStream<W>) returns (first: Result<(), GioError>, second: Result<(), GioError>)
    modifies stream
    ensures first.Ok? && second.Ok? && stream.write.None?
  {
    first := stream.Close();
    second := stream.Close();
  }

  /**
   * The module's own test: ten bytes written to a fresh stream are
   * accepted, and `close_and_take` then returns the writer.
   */
  method WriteThenTake<W>(w: W) returns (written: Result<nat, GioError>, taken: Option<W>)
    ensures written == Ok(10) && taken == Some(w)
  {
    var stream := new WriteOutputStream(w, false);
    var attempts: seq<Attempt<nat>> := [Returned(10)];
    assert !attempts[0].Interrupted?;
    written := stream.Write([1, 2, 3, 4, 5, 6, 7, 8, 9, 10], attempts);
    taken := stream.CloseAndTake();
  }
}
