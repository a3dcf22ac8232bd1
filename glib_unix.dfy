/**
 * UNIX-specific sources (glib-unix/src/functions.rs): the once-wrapper that
 * returns `ControlFlow::Break`, and the callbacks behind `signal_stream` and
 * `signal_future`.
 */
module GlibUnix {
  import opened Wrappers
  import Source

  datatype ControlFlow = Continue | Break

  /** `fnmut_callback_wrapper` / `fnmut_callback_wrapper_local`: run once, then `Break`. */
  method FnmutCallbackWrapper<F>(func: F) returns (w: Source.OnceWrapper<F, ControlFlow>)
    ensures fresh(w)
    ensures w.pending == Some(func) && w.ran == [] && w.stop == Break
  {
    w := new Source.OnceWrapper(func, Break);
  }

  /**
   * The sending half of the stream's unbounded channel: sending fails once
   * the receiver has been dropped; otherwise one `()` is queued.
   */
  class StreamSender {
    var receiverAlive: bool
    var queued: nat

    constructor ()
      ensures receiverAlive && queued == 0
    {
      receiverAlive := true;
      queued := 0;
    }

    method DropReceiver()
      modifies this
      ensures !receiverAlive && queued == old(queued)
    {
      receiverAlive := false;
    }

    /** The `signal_stream` callback: send `()`, `Break` if that failed. */
    method SignalRaised() returns (flow: ControlFlow)
      modifies this
      ensures receiverAlive == old(receiverAlive)
      ensures flow == Continue <==> old(receiverAlive)
      ensures queued == if old(receiverAlive) then old(queued) + 1 else old(queued)
    {
      if receiverAlive {
        queued := queued + 1;
        flow := Continue;
      } else {
        flow := Break;
      }
    }
  }

  /**
   * The `signal_future` callback: owns `Some(sender)`, takes it, sends `()`
   * (ignoring whether the future is still there) and returns `Break`; a call
   * after that finds `None` and panics in `unwrap`.
   */
  class FutureCallback {
    var senderPresent: bool
    var sent: nat

    constructor ()
      ensures senderPresent && sent == 0
    {
      senderPresent := true;
      sent := 0;
    }

    /** `None` is the `unwrap` panic. */
    method SignalRaised() returns (flow: Option<ControlFlow>)
      modifies this
      ensures !senderPresent
      ensures old(senderPresent) ==> flow == Some(Break) && sent == old(sent) + 1
      ensures !old(senderPresent) ==> flow.None? && sent == old(sent)
    {
      if senderPresent {
        senderPresent := false;
        sent := sent + 1;
        flow := Some(Break);
      } else {
        flow := None;
      }
    }
  }

  /** The future's callback sends exactly once: a first call returns `Break`, a second panics. */
  method FutureSendsOnce() returns (first: Option<ControlFlow>, second: Option<ControlFlow>, sent: nat)
    ensures first == Some(Break) && second.None? && sent == 1
  {
    var cb := new FutureCallback();
    first := cb.SignalRaised();
    second := cb.SignalRaised();
    sent := cb.sent;
  }
}
