/**
 * The vocabulary shared by the browser server and its clients: the gRPC
 * reactors that answer the plugin's long-poll calls, the replies they carry,
 * the (reactor, reply, flag) slots a session parks them in, and the tasks
 * posted to the engine's UI thread.
 *
 * A reactor is an abstract token; `Finish` on it is modelled by appending the
 * token and a snapshot of its reply to a log.
 */
module Rpc {
  import opened Wrappers
  import opened AudioLayouts

  /** A `ServerUnaryReactor*`: the handle of one call in flight. */
  type Token = nat

  /** A `CefRefPtr<CefBrowser>` that is not null. */
  type Browser = nat

  /** The reply messages the long-poll calls fill in (protobuf fields). */
  datatype PaintReply = PaintReply(data: seq<seq<byte>>, width: int, height: int)
  datatype BeginFrameReply = BeginFrameReply(sharedHandle: int)
  datatype StartedReply = StartedReply(id: int, channelLayout: ChannelLayout, sampleRate: int)
  datatype PacketReply = PacketReply(data: seq<seq<byte>>, frames: int, pts: int)
  datatype StoppedReply = StoppedReply(id: int)

  type byte = bv8

  /** What a finished call carried back. */
  datatype Reply =
    | NoReply
    | Paint(paint: PaintReply)
    | BeginFrame(beginFrame: BeginFrameReply)
    | Started(started: StartedReply)
    | Packet(packet: PacketReply)
    | Stopped(stopped: StoppedReply)

  /** One `reactor->Finish(Status::OK)`, with the reply as it stood then. */
  datatype Finished = Finished(reactor: Token, reply: Reply)

  /**
   * A waiter slot of a session: the parked reactor, the reply it will carry,
   * and the flag saying that a waiter is parked (`*_requested` / `*_pending`).
   */
  datatype Slot<R> = Slot(reactor: Option<Token>, reply: Option<R>, armed: bool)

  /** A slot as a new client has it: null pointers, flag false. */
  function Idle<R>(): Slot<R> {
    Slot(None, None, false)
  }

  /** No reactor is finished twice in `log`. */
  ghost predicate FinishedOnce(log: seq<Finished>) {
    forall i, j :: 0 <= i < j < |log| ==> log[i].reactor != log[j].reactor
  }

  /** Whether `r` has been finished in `log`. */
  ghost predicate IsFinished(r: Token, log: seq<Finished>) {
    exists i :: 0 <= i < |log| && log[i].reactor == r
  }

  /** Appending a finish of a reactor not yet finished keeps every reactor finished once. */
  lemma FinishFresh(log: seq<Finished>, f: Finished)
    requires FinishedOnce(log) && !IsFinished(f.reactor, log)
    ensures FinishedOnce(log + [f])
  {
    forall i, j | 0 <= i < j < |log + [f]|
      ensures (log + [f])[i].reactor != (log + [f])[j].reactor
    {
      if j == |log| {
        assert (log + [f])[i] == log[i];
      }
    }
  }

  /** Finishing another reactor leaves `r` unfinished. */
  lemma StillUnfinished(log: seq<Finished>, f: Finished, r: Token)
    requires !IsFinished(r, log) && r != f.reactor
    ensures !IsFinished(r, log + [f])
  {
    forall i | 0 <= i < |log + [f]|
      ensures (log + [f])[i].reactor != r
    {
      if i < |log| {
        assert (log + [f])[i] == log[i];
      }
    }
  }

  /** The messages the server sends to a browser through a posted task. */
  datatype BrowserAction =
    | SendVisibility(visible: bool)
    | SendActive(active: bool)
    | ReloadIgnoreCache
    | SendExternalBeginFrame
    | HideAndClose
    | MouseClick(modifiers: int, x: int, y: int, buttonType: int, mouseUp: bool, clickCount: int)
    | MouseMove(modifiers: int, x: int, y: int, mouseLeave: bool)
    | MouseWheel(modifiers: int, x: int, y: int, xDelta: int, yDelta: int)
    | Focus(focus: bool)
    | KeyClick(text: seq<byte>, nativeVkey: int, modifiers: int, keyUp: bool)

  /** Calls made on a browser's host directly from the thread that handles a request. */
  datatype HostCall =
    | SetAudioMuted(browser: Browser, muted: bool)
    | Visibility(browser: Browser, visible: bool)
    | Active(browser: Browser, active: bool)
    | SetWindowlessFrameRate(browser: Browser, fps: int)
}
