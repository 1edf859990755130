/**
 * BrowserClient of browser-client.hpp / browser-client.cpp: the per-session
 * object the engine calls back into. Besides the size and audio settings of
 * the session it holds five waiter slots, one per kind of long-poll call:
 * audio-started, audio-packet, audio-stopped, begin-frame and paint. The
 * server's handlers park a reactor in a slot; the engine callbacks (a painted
 * frame, a shared texture, an audio event) fill in its reply and finish it.
 *
 * Every callback runs under `browser_mtx` and is one atomic step here. The
 * audio callbacks are those of engine builds 3683 to 4102; later builds have
 * empty ones.
 */
module BrowserClients {
  import opened Wrappers
  import opened AudioLayouts
  import opened Rpc

  /** CEF's PaintElementType. */
  datatype PaintElementType = PetView | PetPopup

  /** The reactor parked in `s`, when a waiter is parked there. */
  function Parked<R>(s: Slot<R>): seq<Token> {
    if s.armed && s.reactor.Some? then [s.reactor.value] else []
  }

  /** A parked waiter has both its reactor and its reply. */
  predicate Complete<R>(s: Slot<R>) {
    s.armed ==> s.reactor.Some? && s.reply.Some?
  }

  /** The buffers of the first `n` audio planes, `size` bytes each (none when `n` <= 0). */
  function Planes(pcm: seq<seq<byte>>, n: int, size: nat): seq<seq<byte>>
    requires n <= |pcm| && forall i :: 0 <= i < n ==> size <= |pcm[i]|
    decreases if n < 0 then 0 else n
  {
    if n <= 0 then [] else Planes(pcm, n - 1, size) + [pcm[n - 1][..size]]
  }

  /** Plane `i` is the first `size` bytes of channel `i`'s samples, and there is one plane per channel. */
  lemma {:induction false} PlanesShape(pcm: seq<seq<byte>>, n: int, size: nat)
    requires n <= |pcm| && forall i :: 0 <= i < n ==> size <= |pcm[i]|
    ensures |Planes(pcm, n, size)| == if n < 0 then 0 else n
    ensures forall i :: 0 <= i < |Planes(pcm, n, size)| ==> Planes(pcm, n, size)[i] == pcm[i][..size]
    decreases if n < 0 then 0 else n
  {
    if n > 0 {
      PlanesShape(pcm, n - 1, size);
    }
  }


  /** The fields of a client other than its slots. */
  datatype Session = Session(width: nat, height: nat, rerouteAudio: bool, cefBrowser: Option<Browser>, channels: int, css: string)

  /** The five kinds of long-poll call a session parks. */
  datatype Kind = StartedKind | StoppedKind | PacketKind | BeginFrameKind | PaintKind

  /** The five slots of a client, as one value. */
  datatype Waiters = Waiters(
    started: Slot<StartedReply>,
    stopped: Slot<StoppedReply>,
    packet: Slot<PacketReply>,
    beginFrame: Slot<BeginFrameReply>,
    paint: Slot<PaintReply>)

  /** The reactor parked in the slot of kind `k`, if any. */
  function ParkedAt(w: Waiters, k: Kind): seq<Token> {
    match k
    case StartedKind => Parked(w.started)
    case StoppedKind => Parked(w.stopped)
    case PacketKind => Parked(w.packet)
    case BeginFrameKind => Parked(w.beginFrame)
    case PaintKind => Parked(w.paint)
  }

  predicate AllComplete(w: Waiters) {
    Complete(w.started) && Complete(w.stopped) && Complete(w.packet) && Complete(w.beginFrame) && Complete(w.paint)
  }

  /**
   * What the destructor's `Finish` on the slot of kind `k` logs: one entry,
   * with the slot's reply, when the flag is set and the reactor is not null.
   */
  function Drained(w: Waiters, k: Kind): seq<Finished> {
    match k
    case StartedKind => if |Parked(w.started)| == 1 && w.started.reply.Some? then [Finished(w.started.reactor.value, Started(w.started.reply.value))] else []
    case StoppedKind => if |Parked(w.stopped)| == 1 && w.stopped.reply.Some? then [Finished(w.stopped.reactor.value, Stopped(w.stopped.reply.value))] else []
    case PacketKind => if |Parked(w.packet)| == 1 && w.packet.reply.Some? then [Finished(w.packet.reactor.value, Packet(w.packet.reply.value))] else []
    case BeginFrameKind => if |Parked(w.beginFrame)| == 1 && w.beginFrame.reply.Some? then [Finished(w.beginFrame.reactor.value, BeginFrame(w.beginFrame.reply.value))] else []
    case PaintKind => if |Parked(w.paint)| == 1 && w.paint.reply.Some? then [Finished(w.paint.reactor.value, Paint(w.paint.reply.value))] else []
  }

  /** `w` with the flag of the slot of kind `k` cleared. */
  function Disarm(w: Waiters, k: Kind): Waiters {
    match k
    case StartedKind => w.(started := w.started.(armed := false))
    case StoppedKind => w.(stopped := w.stopped.(armed := false))
    case PacketKind => w.(packet := w.packet.(armed := false))
    case BeginFrameKind => w.(beginFrame := w.beginFrame.(armed := false))
    case PaintKind => w.(paint := w.paint.(armed := false))
  }

  /** Whether `t` is parked in one of the slots of `w`. */
  predicate IsParked(t: Token, w: Waiters) {
    exists k :: t in ParkedAt(w, k)
  }

  /**
   * Every parked waiter has its reactor and reply, is parked in one slot only
   * and is not finished yet; no reactor has been finished twice.
   */
  ghost predicate WaitersValid(w: Waiters, log: seq<Finished>) {
    && AllComplete(w)
    && FinishedOnce(log)
    && (forall k, t :: t in ParkedAt(w, k) ==> !IsFinished(t, log))
    && (forall k1, k2, t :: k1 != k2 && t in ParkedAt(w, k1) ==> t !in ParkedAt(w, k2))
  }

  /** `w2` differs from `w`, as far as parked reactors go, in the slot of kind `k` at most. */
  predicate SameElsewhere(w: Waiters, w2: Waiters, k: Kind) {
    forall k2 :: k2 != k ==> ParkedAt(w2, k2) == ParkedAt(w, k2)
  }

  /** Answering the waiter of kind `k` (finish it, clear its flag) keeps the slots valid. */
  lemma Answer(w: Waiters, w2: Waiters, log: seq<Finished>, k: Kind, f: Finished)
    requires WaitersValid(w, log) && AllComplete(w2)
    requires ParkedAt(w, k) == [f.reactor] && ParkedAt(w2, k) == [] && SameElsewhere(w, w2, k)
    ensures WaitersValid(w2, log + [f])
  {
    assert f.reactor in ParkedAt(w, k);
    FinishFresh(log, f);
    forall k2, t | t in ParkedAt(w2, k2) ensures !IsFinished(t, log + [f]) {
      assert t in ParkedAt(w, k2) && k2 != k;
      StillUnfinished(log, f, t);
    }
  }

  /**
   * The destructor's step on the slot of kind `k` keeps the slots valid once
   * that slot counts as empty, and leaves what the other slots would log.
   */
  lemma DrainStep(w: Waiters, log: seq<Finished>, k: Kind)
    requires WaitersValid(w, log)
    ensures WaitersValid(Disarm(w, k), log + Drained(w, k))
    ensures forall k2 :: k2 != k ==> Drained(Disarm(w, k), k2) == Drained(w, k2)
  {
    if Drained(w, k) != [] {
      Answer(w, Disarm(w, k), log, k, Drained(w, k)[0]);
      assert log + Drained(w, k) == log + [Drained(w, k)[0]];
    } else {
      assert log + Drained(w, k) == log;
    }
  }

  /**
   * Parking a new reactor in the slot of kind `k`, dropping the one parked
   * there before without finishing it, keeps the slots valid.
   */
  lemma Rearm(w: Waiters, w2: Waiters, log: seq<Finished>, k: Kind, r: Token)
    requires WaitersValid(w, log) && AllComplete(w2)
    requires !IsFinished(r, log) && !IsParked(r, w)
    requires ParkedAt(w2, k) == [r] && SameElsewhere(w, w2, k)
    ensures WaitersValid(w2, log)
  {
  }

  class BrowserClient {
    /** `sharing_available`: set by the constructor and never changed. */
    const sharingAvailable: bool

    var width: nat
    var height: nat
    var rerouteAudio: bool
    /** `cefBrowser`: None while no browser is attached (null). */
    var cefBrowser: Option<Browser>
    /** The number of audio planes a packet reply carries, as the last packet call asked. */
    var channels: int
    var css: string

    var started: Slot<StartedReply>
    var stopped: Slot<StoppedReply>
    var packet: Slot<PacketReply>
    var beginFrame: Slot<BeginFrameReply>
    var paint: Slot<PaintReply>

    /** The reactors finished through this client's slots, in order. */
    ghost var finished: seq<Finished>

    /** The session settings, as one value. */
    function Settings(): Session
      reads this
    {
      Session(width, height, rerouteAudio, cefBrowser, channels, css)
    }

    /** The five slots as one value. */
    function View(): Waiters
      reads this
    {
      Waiters(started, stopped, packet, beginFrame, paint)
    }

    ghost predicate Valid()
      reads this
    {
      WaitersValid(View(), finished)
    }

    /** `r` is a reactor this client has neither finished nor parked: that of a new call. */
    ghost predicate Fresh(r: Token)
      reads this
    {
      !IsFinished(r, finished) && !IsParked(r, View())
    }

    /** The inline constructor: the two arguments are recorded; every reactor and reply is null and every flag false. */
    constructor(sharingAvail: bool, rerouteAudio_: bool)
      ensures sharingAvailable == sharingAvail && rerouteAudio == rerouteAudio_
      ensures cefBrowser == None && css == []
      ensures View() == Waiters(Idle(), Idle(), Idle(), Idle(), Idle())
      ensures finished == []
      ensures Valid()
    {
      sharingAvailable := sharingAvail;
      rerouteAudio := rerouteAudio_;
      cefBrowser := None;
      css := [];
      started, stopped, packet := Idle(), Idle(), Idle();
      beginFrame, paint := Idle(), Idle();
      finished := [];
    }

    /**
     * GetViewRect: the size the engine renders at, 16 x 16 while no browser is
     * attached, otherwise the session's size with each side at least 1.
     */
    function ViewRect(): (r: (nat, nat))
      reads this
      ensures r.0 >= 1 && r.1 >= 1
      ensures cefBrowser.None? ==> r == (16, 16)
      ensures cefBrowser.Some? ==> (width >= 1 ==> r.0 == width) && (height >= 1 ==> r.1 == height)
      ensures cefBrowser.Some? ==> (width == 0 ==> r.0 == 1) && (height == 0 ==> r.1 == 1)
    {
      if cefBrowser.None? then (16, 16)
      else (if width < 1 then 1 else width, if height < 1 then 1 else height)
    }

    /**
     * OnPaint: a view frame answers a parked paint call with one more blob of
     * width * height * 4 bytes and the frame's size, unless the frame's first
     * byte is 0; without a parked call the frame is dropped. Popup frames are
     * ignored. Nothing else changes.
     */
    method OnPaint(kind: PaintElementType, buffer: seq<byte>, w: int, h: int)
      requires Valid()
      requires kind == PetView && paint.armed ==> 0 < |buffer| && 0 <= w && 0 <= h && w * h * 4 <= |buffer|
      modifies this
      ensures Valid()
      ensures kind != PetView || !old(paint.armed) || buffer[0] == 0 ==>
        paint == old(paint) && finished == old(finished)
      ensures kind == PetView && old(paint.armed) && buffer[0] != 0 ==>
        var reply := PaintReply(old(paint.reply.value.data) + [buffer[..w * h * 4]], w, h);
        && paint == Slot(old(paint.reactor), Some(reply), false)
        && finished == old(finished) + [Finished(old(paint.reactor.value), Paint(reply))]
      ensures started == old(started) && stopped == old(stopped) && packet == old(packet)
      ensures beginFrame == old(beginFrame)
      ensures Settings() == old(Settings())
    {
      if kind != PetView {
        return;
      }
      if paint.armed {
        if buffer[0] != 0 {
          ghost var w0 := View();
          var reply := PaintReply(paint.reply.value.data + [buffer[..w * h * 4]], w, h);
          var reactor := paint.reactor.value;
          paint := Slot(paint.reactor, Some(reply), false);
          finished := finished + [Finished(reactor, Paint(reply))];
          Answer(w0, View(), old(finished), PaintKind, Finished(reactor, Paint(reply)));
        }
      }
      // otherwise the frame is dropped
    }

    /**
     * OnAcceleratedPaint: a parked begin-frame call is answered with the
     * shared texture handle; without one nothing happens.
     */
    method OnAcceleratedPaint(sharedHandle: int)
      requires Valid()
      modifies this
      ensures Valid()
      ensures !old(beginFrame.armed) ==> beginFrame == old(beginFrame) && finished == old(finished)
      ensures old(beginFrame.armed) ==>
        var reply := BeginFrameReply(sharedHandle);
        && beginFrame == Slot(old(beginFrame.reactor), Some(reply), false)
        && finished == old(finished) + [Finished(old(beginFrame.reactor.value), BeginFrame(reply))]
      ensures started == old(started) && stopped == old(stopped) && packet == old(packet) && paint == old(paint)
      ensures Settings() == old(Settings())
    {
      if beginFrame.armed {
        ghost var w0 := View();
        var reply := BeginFrameReply(sharedHandle);
        var reactor := beginFrame.reactor.value;
        beginFrame := Slot(beginFrame.reactor, Some(reply), false);
        finished := finished + [Finished(reactor, BeginFrame(reply))];
        Answer(w0, View(), old(finished), BeginFrameKind, Finished(reactor, BeginFrame(reply)));
      }
    }

    /**
     * The legacy OnAudioStreamPacket: a parked packet call is answered with
     * one more buffer of frames * 4 bytes per channel, the frame count and the
     * timestamp; without one the packet is dropped.
     */
    method OnAudioStreamPacket(pcm: seq<seq<byte>>, frames: int, pts: int)
      requires Valid()
      requires packet.armed ==>
        0 <= frames && channels <= |pcm| && forall i :: 0 <= i < channels ==> frames * 4 <= |pcm[i]|
      modifies this
      ensures Valid()
      ensures Settings() == old(Settings())
      ensures !old(packet.armed) ==> packet == old(packet) && finished == old(finished)
      ensures old(packet.armed) ==>
        var reply := PacketReply(old(packet.reply.value.data) + Planes(pcm, channels, frames * 4), frames, pts);
        && packet == Slot(old(packet.reactor), Some(reply), false)
        && finished == old(finished) + [Finished(old(packet.reactor.value), Packet(reply))]
      ensures started == old(started) && stopped == old(stopped) && beginFrame == old(beginFrame) && paint == old(paint)
      ensures Settings() == old(Settings())
    {
      if packet.armed {
        var size: nat := frames * 4;
        var n := channels;
        var data := packet.reply.value.data;
        ghost var data0 := data;
        var i := 0;
        while i < n
          invariant 0 <= i && (if n >= 0 then i <= n else i == 0) && i <= |pcm|
          invariant forall j :: 0 <= j < i ==> size <= |pcm[j]|
          invariant data == data0 + Planes(pcm, i, size)
          decreases n - i
        {
          data := data + [pcm[i][..size]];
          i := i + 1;
        }
        if n < 0 {
          assert Planes(pcm, n, size) == [] == Planes(pcm, 0, size);
        }
        ghost var w0 := View();
        var reply := PacketReply(data, frames, pts);
        var reactor := packet.reactor.value;
        packet := Slot(packet.reactor, Some(reply), false);
        finished := finished + [Finished(reactor, Packet(reply))];
        Answer(w0, View(), old(finished), PacketKind, Finished(reactor, Packet(reply)));
      }
      // otherwise the packet is dropped
    }

    /**
     * The legacy OnAudioStreamStarted as written: whenever a reactor and a
     * reply are stored it fills in the reply and finishes the reactor, whether
     * or not a call is still parked, then clears the flag. The reactor is not
     * cleared, so a second audio stream finishes it again.
     */
    method OnAudioStreamStartedAsWritten(id: int, layout: ChannelLayout, sampleRate: int)
      modifies this
      ensures old(started.reactor).None? || old(started.reply).None? ==>
        started == old(started) && finished == old(finished)
      ensures old(started.reactor).Some? && old(started.reply).Some? ==>
        var reply := StartedReply(id, layout, sampleRate);
        && started == Slot(old(started.reactor), Some(reply), false)
        && finished == old(finished) + [Finished(old(started.reactor.value), Started(reply))]
      ensures stopped == old(stopped) && packet == old(packet) && beginFrame == old(beginFrame) && paint == old(paint)
      ensures Settings() == old(Settings())
    {
      if started.reactor.None? || started.reply.None? {
        return;
      }
      var reply := StartedReply(id, layout, sampleRate);
      finished := finished + [Finished(started.reactor.value, Started(reply))];
      started := Slot(started.reactor, Some(reply), false);
    }

    /**
     * OnAudioStreamStarted as evidently intended: a parked audio-started call
     * is answered with the stream's id, layout and sample rate and the flag is
     * cleared; without one the event is dropped, so each call is finished once.
     */
    method OnAudioStreamStarted(id: int, layout: ChannelLayout, sampleRate: int)
      requires Valid()
      modifies this
      ensures Valid()
      ensures !old(started.armed) ==> started == old(started) && finished == old(finished)
      ensures old(started.armed) ==>
        var reply := StartedReply(id, layout, sampleRate);
        && started == Slot(old(started.reactor), Some(reply), false)
        && finished == old(finished) + [Finished(old(started.reactor.value), Started(reply))]
      ensures stopped == old(stopped) && packet == old(packet) && beginFrame == old(beginFrame) && paint == old(paint)
      ensures Settings() == old(Settings())
    {
      if !started.armed {
        return;
      }
      ghost var w0 := View();
      var reply := StartedReply(id, layout, sampleRate);
      var reactor := started.reactor.value;
      started := Slot(started.reactor, Some(reply), false);
      finished := finished + [Finished(reactor, Started(reply))];
      Answer(w0, View(), old(finished), StartedKind, Finished(reactor, Started(reply)));
    }

    /** The legacy OnAudioStreamStopped as written: like Started, it finishes a stored reactor whatever the flag says. */
    method OnAudioStreamStoppedAsWritten(id: int)
      modifies this
      ensures old(stopped.reactor).None? || old(stopped.reply).None? ==>
        stopped == old(stopped) && finished == old(finished)
      ensures old(stopped.reactor).Some? && old(stopped.reply).Some? ==>
        && stopped == Slot(old(stopped.reactor), Some(StoppedReply(id)), false)
        && finished == old(finished) + [Finished(old(stopped.reactor.value), Stopped(StoppedReply(id)))]
      ensures started == old(started) && packet == old(packet) && beginFrame == old(beginFrame) && paint == old(paint)
      ensures Settings() == old(Settings())
    {
      if stopped.reactor.None? || stopped.reply.None? {
        return;
      }
      var reply := StoppedReply(id);
      finished := finished + [Finished(stopped.reactor.value, Stopped(reply))];
      stopped := Slot(stopped.reactor, Some(reply), false);
    }

    /** OnAudioStreamStopped as evidently intended: only a parked audio-stopped call is answered. */
    method OnAudioStreamStopped(id: int)
      requires Valid()
      modifies this
      ensures Valid()
      ensures !old(stopped.armed) ==> stopped == old(stopped) && finished == old(finished)
      ensures old(stopped.armed) ==>
        && stopped == Slot(old(stopped.reactor), Some(StoppedReply(id)), false)
        && finished == old(finished) + [Finished(old(stopped.reactor.value), Stopped(StoppedReply(id)))]
      ensures started == old(started) && packet == old(packet) && beginFrame == old(beginFrame) && paint == old(paint)
      ensures Settings() == old(Settings())
    {
      if !stopped.armed {
        return;
      }
      ghost var w0 := View();
      var reply := StoppedReply(id);
      var reactor := stopped.reactor.value;
      stopped := Slot(stopped.reactor, Some(reply), false);
      finished := finished + [Finished(reactor, Stopped(reply))];
      Answer(w0, View(), old(finished), StoppedKind, Finished(reactor, Stopped(reply)));
    }

    /**
     * ~BrowserClient: the audio-started, audio-stopped, audio-packet and
     * begin-frame waiters are finished, in that order, each when its flag is
     * set and its reactor is not null. A parked paint call is not finished.
     * No reactor ends up finished twice.
     */
    method Release()
      requires Valid()
      modifies this
      ensures finished == old(finished) + Drained(View(), StartedKind) + Drained(View(), StoppedKind)
        + Drained(View(), PacketKind) + Drained(View(), BeginFrameKind)
      ensures FinishedOnce(finished)
      ensures View() == old(View())
      ensures Settings() == old(Settings())
    {
      ghost var g0 := View();
      finished := finished + Drained(g0, StartedKind);
      DrainStep(g0, old(finished), StartedKind);
      ghost var g1 := Disarm(g0, StartedKind);
      ghost var log1 := finished;
      finished := finished + Drained(g0, StoppedKind);
      DrainStep(g1, log1, StoppedKind);
      ghost var g2 := Disarm(g1, StoppedKind);
      ghost var log2 := finished;
      finished := finished + Drained(g0, PacketKind);
      DrainStep(g2, log2, PacketKind);
      ghost var g3 := Disarm(g2, PacketKind);
      ghost var log3 := finished;
      finished := finished + Drained(g0, BeginFrameKind);
      DrainStep(g3, log3, BeginFrameKind);
    }

    /** Park a new paint call, dropping any parked before (RequestPaint parks only when none is). */
    method ArmPaint(r: Token, reply: PaintReply)
      requires Valid() && Fresh(r)
      modifies this
      ensures Valid()
      ensures paint == Slot(Some(r), Some(reply), true) && finished == old(finished)
      ensures started == old(started) && stopped == old(stopped) && packet == old(packet) && beginFrame == old(beginFrame)
      ensures Settings() == old(Settings())
    {
      ghost var w0 := View();
      paint := Slot(Some(r), Some(reply), true);
      Rearm(w0, View(), finished, PaintKind, r);
    }

    /**
     * The begin-frame part of SignalBeginFrame: a begin-frame call already
     * parked is finished with the reply it has, then the new one is parked.
     */
    method ParkBeginFrame(r: Token, reply: BeginFrameReply)
      requires Valid() && Fresh(r)
      modifies this
      ensures Valid()
      ensures beginFrame == Slot(Some(r), Some(reply), true)
      ensures old(beginFrame.armed) ==>
        finished == old(finished) + [Finished(old(beginFrame.reactor.value), BeginFrame(old(beginFrame.reply.value)))]
      ensures !old(beginFrame.armed) ==> finished == old(finished)
      ensures started == old(started) && stopped == old(stopped) && packet == old(packet) && paint == old(paint)
      ensures Settings() == old(Settings())
    {
      if beginFrame.armed {
        ghost var w0 := View();
        var f := Finished(beginFrame.reactor.value, BeginFrame(beginFrame.reply.value));
        finished := finished + [f];
        beginFrame := beginFrame.(armed := false);
        Answer(w0, View(), old(finished), BeginFrameKind, f);
        assert f.reactor in ParkedAt(w0, BeginFrameKind);
        StillUnfinished(old(finished), f, r);
      }
      ghost var w1 := View();
      beginFrame := Slot(Some(r), Some(reply), true);
      Rearm(w1, View(), finished, BeginFrameKind, r);
    }

    /** The slot part of the server's OnAudioStreamStarted: the new call replaces any parked one, which is never finished. */
    method ArmStarted(r: Token, reply: StartedReply)
      requires Valid() && Fresh(r)
      modifies this
      ensures Valid()
      ensures started == Slot(Some(r), Some(reply), true) && finished == old(finished)
      ensures stopped == old(stopped) && packet == old(packet) && beginFrame == old(beginFrame) && paint == old(paint)
      ensures Settings() == old(Settings())
    {
      ghost var w0 := View();
      started := Slot(Some(r), Some(reply), true);
      Rearm(w0, View(), finished, StartedKind, r);
    }

    /** The slot part of the server's OnAudioStreamPacket: the call's channel count is recorded and the call replaces any parked one. */
    method ArmPacket(r: Token, reply: PacketReply, requested: int)
      requires Valid() && Fresh(r)
      modifies this
      ensures Valid()
      ensures packet == Slot(Some(r), Some(reply), true) && finished == old(finished)
      ensures started == old(started) && stopped == old(stopped) && beginFrame == old(beginFrame) && paint == old(paint)
      ensures Settings() == old(Settings()).(channels := requested)
    {
      ghost var w0 := View();
      channels := requested;
      packet := Slot(Some(r), Some(reply), true);
      Rearm(w0, View(), finished, PacketKind, r);
    }

    /** The slot part of the server's OnAudioStreamStopped: the new call replaces any parked one. */
    method ArmStopped(r: Token, reply: StoppedReply)
      requires Valid() && Fresh(r)
      modifies this
      ensures Valid()
      ensures stopped == Slot(Some(r), Some(reply), true) && finished == old(finished)
      ensures started == old(started) && packet == old(packet) && beginFrame == old(beginFrame) && paint == old(paint)
      ensures Settings() == old(Settings())
    {
      ghost var w0 := View();
      stopped := Slot(Some(r), Some(reply), true);
      Rearm(w0, View(), finished, StoppedKind, r);
    }

    /**
     * The paint part of DestroyBrowserSource: a parked paint call is answered
     * with a size of 0 x 0 (its data kept) and its flag cleared.
     */
    method CancelPaint()
      requires Valid()
      modifies this
      ensures Valid()
      ensures old(paint.armed) ==>
        var reply := old(paint.reply.value).(width := 0, height := 0);
        && paint == Slot(old(paint.reactor), Some(reply), false)
        && finished == old(finished) + [Finished(old(paint.reactor.value), Paint(reply))]
      ensures !old(paint.armed) ==> paint == old(paint) && finished == old(finished)
      ensures started == old(started) && stopped == old(stopped) && packet == old(packet) && beginFrame == old(beginFrame)
      ensures Settings() == old(Settings())
    {
      if paint.armed && paint.reactor.Some? {
        ghost var w0 := View();
        var reply := paint.reply.value.(width := 0, height := 0);
        var reactor := paint.reactor.value;
        paint := Slot(paint.reactor, Some(reply), false);
        finished := finished + [Finished(reactor, Paint(reply))];
        Answer(w0, View(), old(finished), PaintKind, Finished(reactor, Paint(reply)));
      }
    }

    /** Set `cefBrowser` (to None for null): no slot changes. */
    method SetBrowser(b: Option<Browser>)
      modifies this
      ensures Settings() == old(Settings()).(cefBrowser := b)
      ensures View() == old(View()) && finished == old(finished)
    {
      cefBrowser := b;
    }

    /** The session settings the create task records on a new client. */
    method Configure(w: nat, h: nat, reroute: bool, style: string)
      modifies this
      ensures Settings() == old(Settings()).(width := w, height := h, rerouteAudio := reroute, css := style)
      ensures View() == old(View()) && finished == old(finished)
    {
      width, height, rerouteAudio, css := w, h, reroute, style;
    }
  }

  /**
   * As written, the legacy audio-started callback finishes the same reactor
   * once per audio stream: one parked call and two streams give two finishes
   * of reactor 7, which the corrected callback never does.
   */
  method StartedTwiceAsWritten() returns (c: BrowserClient)
    ensures !FinishedOnce(c.finished)
    ensures |c.finished| == 2 && c.finished[0].reactor == c.finished[1].reactor == 7
  {
    c := new BrowserClient(false, true);
    c.ArmStarted(7, StartedReply(0, LayoutUnsupported, 0));
    c.OnAudioStreamStartedAsWritten(1, LayoutStereo, 48000);
    c.OnAudioStreamStartedAsWritten(2, LayoutStereo, 48000);
    assert c.finished[0].reactor == c.finished[1].reactor;
  }

  /** The corrected callback answers a parked audio-started call once, however many streams start. */
  method StartedOnce() returns (c: BrowserClient)
    ensures FinishedOnce(c.finished)
    ensures |c.finished| == 1 && c.finished[0].reactor == 7
  {
    c := new BrowserClient(false, true);
    c.ArmStarted(7, StartedReply(0, LayoutUnsupported, 0));
    c.OnAudioStreamStarted(1, LayoutStereo, 48000);
    c.OnAudioStreamStarted(2, LayoutStereo, 48000);
  }
}
