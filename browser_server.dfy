/**
 * The browser server of obs-browser-server.cpp: the registry of sessions
 * (`browserClients`, a map from a session id to a client pointer that may
 * be null), the gRPC handlers that look sessions up, post work to the
 * engine's UI thread and park long-poll calls in a client's slots, and the
 * shutdown flag shared by the client monitor and the shutdown handler.
 *
 * Every handler runs under `browser_clients_mtx` (and the client's
 * `browser_mtx`) and is one atomic step here. Posting a task appends it to
 * a FIFO queue that `RunTask` drains; a reactor the handler finishes at once
 * is logged in `answered`.
 */
module BrowserServers {
  import opened Wrappers
  import opened Rpc
  import opened BrowserClients
  import opened EngineInit

  type Registry = map<nat, BrowserClient?>

  /** `browserClients[id]` as an expression: an absent id gets a null entry. */
  function Probe(m: Registry, id: nat): (r: Registry)
    ensures id in r && r.Keys == m.Keys + {id}
    ensures id in m ==> r == m
    ensures id !in m ==> r[id] == null
    ensures forall k :: k in m ==> r[k] == m[k]
  {
    if id in m then m else m[id := null]
  }

  /** Whether `id` names a live session (an entry that is not null). */
  predicate LiveIn(m: Registry, id: nat) {
    id in m && m[id] != null
  }

  /** A Windows HANDLE as the monitor sees it. */
  datatype Handle = NullHandle | InvalidHandleValue | OpenHandle(process: nat)

  /** isValidHandleValue: neither NULL nor INVALID_HANDLE_VALUE. */
  function IsValidHandleValue(h: Handle): (valid: bool)
    ensures valid <==> h.OpenHandle?
  {
    h != NullHandle && h != InvalidHandleValue
  }

  /** The fields of a CreateRequest the create task uses. */
  datatype SessionRequest = SessionRequest(
    id: nat, hwaccel: bool, rerouteAudio: bool, width: nat, height: nat,
    fps: nat, canvasFps: real, fpsCustom: bool, videoFps: nat,
    url: string, css: string, isShowing: bool)

  /** A task posted to the engine's UI thread. */
  datatype Task =
    | CreateSession(request: SessionRequest)
    | OnBrowser(browser: Browser, action: BrowserAction)
    | QuitMessageLoop

  /** What a handler that dereferences a client's browser does: answer, or crash on a null browser. */
  datatype Outcome = Answered | NullDereference

  /** The process-wide state besides the registry and the queue. */
  datatype Lifecycle = Lifecycle(
    shutdown: bool, clientProc: Handle, closedHandles: seq<Handle>,
    managerRunning: bool, shutdownThreads: nat, serverStopped: bool)

  class BrowserServer {
    /** The build's shared-texture and external begin-frame switches. */
    const flags: BuildFlags

    var clients: Registry
    /** The engine's task queue, oldest first. */
    var tasks: seq<Task>
    /** The browser actions the engine has run, in order. */
    var delivered: seq<(Browser, BrowserAction)>
    /** Calls on a browser's host made by the handlers and tasks. */
    var hostCalls: seq<HostCall>
    /** The browsers the create tasks asked the engine for. */
    var launches: seq<Launch>
    /** The reactors the handlers finished themselves. */
    ghost var answered: seq<Finished>

    var shutdown: bool
    var clientProc: Handle
    /** The handles passed to CloseHandle. */
    var closedHandles: seq<Handle>
    /** Whether the engine's manager thread is joinable. */
    var managerRunning: bool
    /** The ShutdownServer threads started. */
    var shutdownThreads: nat
    var serverStopped: bool

    function State(): Lifecycle
      reads this
    {
      Lifecycle(shutdown, clientProc, closedHandles, managerRunning, shutdownThreads, serverStopped)
    }

    /** The clients the registry points at. */
    ghost function Live(): set<BrowserClient>
      reads this
    {
      set id | id in clients && clients[id] != null :: clients[id]
    }

    /** The client a handler for `id` may change: the live one, if any. */
    ghost function Target(id: nat): set<BrowserClient>
      reads this
    {
      if LiveIn(clients, id) then {clients[id]} else {}
    }

    /** Every live session's slots are valid. */
    ghost predicate Valid()
      reads this, Live()
    {
      forall id :: LiveIn(clients, id) ==> clients[id].Valid()
    }

    /**
     * The server as the handlers find it once IntializeBrowserCEF has
     * started the engine's manager thread (which is why `managerRunning`
     * starts true): no sessions, no tasks, no shutdown and no client
     * process handle. IntializeBrowserCEF itself is not part of this model.
     */
    constructor(buildFlags: BuildFlags)
      ensures flags == buildFlags && clients == map[] && tasks == []
      ensures delivered == [] && hostCalls == [] && launches == [] && answered == []
      ensures State() == Lifecycle(false, NullHandle, [], true, 0, false)
      ensures Valid()
    {
      flags := buildFlags;
      clients, tasks := map[], [];
      delivered, hostCalls, launches, answered := [], [], [], [];
      shutdown, clientProc, closedHandles := false, NullHandle, [];
      managerRunning, shutdownThreads, serverStopped := true, 0, false;
    }

    /**
     * ExecuteOnBrowser in async mode: a task running `action` on the
     * browser is posted only when there is a browser.
     */
    method ExecuteOnBrowser(browser: Option<Browser>, action: BrowserAction)
      modifies this
      ensures tasks == old(tasks) + (if browser.Some? then [OnBrowser(browser.value, action)] else [])
      ensures clients == old(clients) && delivered == old(delivered) && hostCalls == old(hostCalls)
      ensures launches == old(launches) && answered == old(answered) && State() == old(State())
    {
      if browser.Some? {
        tasks := tasks + [OnBrowser(browser.value, action)];
      }
    }

    /**
     * The shape shared by SetShowing, SetActive, Refresh and the mouse,
     * focus and key handlers: probe the registry; for a live session post
     * `action` for its browser; finish the call at once.
     */
    method Command(id: nat, action: BrowserAction, r: Token)
      requires Valid()
      modifies this
      ensures Valid()
      ensures clients == Probe(old(clients), id)
      ensures tasks == old(tasks) +
        (if LiveIn(old(clients), id) && old(clients[id].cefBrowser).Some?
         then [OnBrowser(old(clients[id].cefBrowser.value), action)] else [])
      ensures answered == old(answered) + [Finished(r, NoReply)]
      ensures delivered == old(delivered) && hostCalls == old(hostCalls) && launches == old(launches)
      ensures State() == old(State())
    {
      clients := Probe(clients, id);
      var c := clients[id];
      if c == null {
        answered := answered + [Finished(r, NoReply)];
        return;
      }
      ExecuteOnBrowser(c.cefBrowser, action);
      answered := answered + [Finished(r, NoReply)];
    }

    /** SetShowing: the renderer gets a Visibility message. */
    method SetShowing(id: nat, showing: bool, r: Token)
      requires Valid()
      modifies this
      ensures Valid()
      ensures clients == Probe(old(clients), id)
      ensures tasks == old(tasks) +
        (if LiveIn(old(clients), id) && old(clients[id].cefBrowser).Some?
         then [OnBrowser(old(clients[id].cefBrowser.value), SendVisibility(showing))] else [])
      ensures answered == old(answered) + [Finished(r, NoReply)]
      ensures delivered == old(delivered) && hostCalls == old(hostCalls) && launches == old(launches)
      ensures State() == old(State())
    {
      Command(id, SendVisibility(showing), r);
    }

    /** SetActive: the renderer gets an Active message. */
    method SetActive(id: nat, active: bool, r: Token)
      requires Valid()
      modifies this
      ensures Valid()
      ensures clients == Probe(old(clients), id)
      ensures tasks == old(tasks) +
        (if LiveIn(old(clients), id) && old(clients[id].cefBrowser).Some?
         then [OnBrowser(old(clients[id].cefBrowser.value), SendActive(active))] else [])
      ensures answered == old(answered) + [Finished(r, NoReply)]
      ensures delivered == old(delivered) && hostCalls == old(hostCalls) && launches == old(launches)
      ensures State() == old(State())
    {
      Command(id, SendActive(active), r);
    }

    /** Refresh: the browser reloads, ignoring its cache. */
    method Refresh(id: nat, r: Token)
      requires Valid()
      modifies this
      ensures Valid()
      ensures clients == Probe(old(clients), id)
      ensures tasks == old(tasks) +
        (if LiveIn(old(clients), id) && old(clients[id].cefBrowser).Some?
         then [OnBrowser(old(clients[id].cefBrowser.value), ReloadIgnoreCache)] else [])
      ensures answered == old(answered) + [Finished(r, NoReply)]
      ensures delivered == old(delivered) && hostCalls == old(hostCalls) && launches == old(launches)
      ensures State() == old(State())
    {
      Command(id, ReloadIgnoreCache, r);
    }

    /** SendMouseClick, SendMouseMove, SendMouseWheel, SendFocus and SendKeyClick: the event goes to the browser. */
    method SendInput(id: nat, event: BrowserAction, r: Token)
      requires event.MouseClick? || event.MouseMove? || event.MouseWheel? || event.Focus? || event.KeyClick?
      requires Valid()
      modifies this
      ensures Valid()
      ensures clients == Probe(old(clients), id)
      ensures tasks == old(tasks) +
        (if LiveIn(old(clients), id) && old(clients[id].cefBrowser).Some?
         then [OnBrowser(old(clients[id].cefBrowser.value), event)] else [])
      ensures answered == old(answered) + [Finished(r, NoReply)]
      ensures delivered == old(delivered) && hostCalls == old(hostCalls) && launches == old(launches)
      ensures State() == old(State())
    {
      Command(id, event, r);
    }

    /** CreateBrowserSource: the create task is posted and the call finished; the registry changes when the task runs. */
    method CreateBrowserSource(req: SessionRequest, r: Token)
      modifies this
      ensures tasks == old(tasks) + [CreateSession(req)]
      ensures answered == old(answered) + [Finished(r, NoReply)]
      ensures clients == old(clients) && delivered == old(delivered) && hostCalls == old(hostCalls)
      ensures launches == old(launches) && State() == old(State())
    {
      tasks := tasks + [CreateSession(req)];
      answered := answered + [Finished(r, NoReply)];
    }

    /**
     * The create task: a new client replaces whatever the registry held for
     * the id and records the size, audio routing and CSS; the browser is
     * launched with the frame-rate choice. `created` is what
     * CreateBrowserSync returned (None for null): the entry keeps a null
     * browser then, and nothing is sent; otherwise audio is muted when
     * rerouted and the renderer is told whether the source is showing.
     */
    method RunCreateTask(req: SessionRequest, created: Option<Browser>)
      requires Valid()
      modifies this
      ensures Valid()
      ensures req.id in clients && clients[req.id] != null && fresh(clients[req.id])
      ensures clients == old(clients)[req.id := clients[req.id]]
      ensures clients[req.id].Settings() == Session(req.width, req.height, req.rerouteAudio, created, clients[req.id].channels, req.css)
      ensures clients[req.id].sharingAvailable == req.hwaccel
      ensures clients[req.id].View() == Waiters(Idle(), Idle(), Idle(), Idle(), Idle())
      ensures launches == old(launches) + [Launch(req.width, req.height, req.hwaccel,
        FrameRate(flags, req.fpsCustom, req.fps, req.canvasFps), req.url)]
      ensures created.None? ==> hostCalls == old(hostCalls)
      ensures created.Some? ==>
        hostCalls == old(hostCalls) + (if req.rerouteAudio then [SetAudioMuted(created.value, true)] else [])
          + [Visibility(created.value, req.isShowing)]
      ensures tasks == old(tasks) && delivered == old(delivered) && answered == old(answered)
      ensures State() == old(State())
    {
      var c := NewSession(req, created);
      clients := clients[req.id := c];
      var frames := FrameRate(flags, req.fpsCustom, req.fps, req.canvasFps);
      launches := launches + [Launch(req.width, req.height, req.hwaccel, frames, req.url)];
      if created.None? {
        return;
      }
      if req.rerouteAudio {
        hostCalls := hostCalls + [SetAudioMuted(created.value, true)];
      }
      hostCalls := hostCalls + [Visibility(created.value, req.isShowing)];
    }

    /**
     * The engine runs the oldest task: a create task as above, or a
     * browser action, which is delivered; the quit task ends the loop.
     * The queue does not stop at a quit task: a task queued after it can
     * still be run here, which the engine, its loop ended, would not do.
     */
    method RunTask(created: Option<Browser>)
      requires Valid() && |tasks| > 0
      modifies this
      ensures Valid()
      ensures old(tasks[0]).OnBrowser? ==>
        delivered == old(delivered) + [(old(tasks[0]).browser, old(tasks[0]).action)] && clients == old(clients)
      ensures !old(tasks[0]).OnBrowser? ==> delivered == old(delivered)
      ensures !old(tasks[0]).CreateSession? ==> clients == old(clients) && hostCalls == old(hostCalls)
      ensures old(tasks[0]).CreateSession? ==>
        LiveIn(clients, old(tasks[0]).request.id) && clients[old(tasks[0]).request.id].cefBrowser == created
      ensures tasks == old(tasks[1..]) && answered == old(answered) && State() == old(State())
    {
      var t := tasks[0];
      tasks := tasks[1..];
      match t
      case CreateSession(req) =>
        ghost var rest := tasks;
        RunCreateTask(req, created);
      case OnBrowser(b, action) =>
        delivered := delivered + [(b, action)];
      case QuitMessageLoop =>
    }

    /**
     * UpdateVideoFPS as written: for a live session it sets the browser's
     * frame rate directly, dereferencing the browser even when the create
     * task left it null.
     */
    method UpdateVideoFPSAsWritten(id: nat, videoFps: int, r: Token) returns (outcome: Outcome)
      requires Valid()
      modifies this
      ensures Valid()
      ensures outcome == NullDereference <==> LiveIn(old(clients), id) && old(clients[id].cefBrowser).None?
      ensures clients == Probe(old(clients), id)
      ensures outcome == Answered ==> answered == old(answered) + [Finished(r, NoReply)]
      ensures outcome == NullDereference ==> answered == old(answered) && hostCalls == old(hostCalls)
      ensures outcome == Answered && LiveIn(old(clients), id) ==>
        hostCalls == old(hostCalls) + [SetWindowlessFrameRate(old(clients[id].cefBrowser.value), videoFps)]
      ensures !LiveIn(old(clients), id) ==> hostCalls == old(hostCalls)
      ensures tasks == old(tasks) && State() == old(State())
    {
      clients := Probe(clients, id);
      var c := clients[id];
      if c == null {
        answered := answered + [Finished(r, NoReply)];
        return Answered;
      }
      if c.cefBrowser.None? {
        return NullDereference;
      }
      hostCalls := hostCalls + [SetWindowlessFrameRate(c.cefBrowser.value, videoFps)];
      answered := answered + [Finished(r, NoReply)];
      return Answered;
    }

    /** UpdateVideoFPS as evidently intended: a session without a browser is skipped, like every other handler does. */
    method UpdateVideoFPS(id: nat, videoFps: int, r: Token)
      requires Valid()
      modifies this
      ensures Valid()
      ensures clients == Probe(old(clients), id)
      ensures answered == old(answered) + [Finished(r, NoReply)]
      ensures hostCalls == old(hostCalls) +
        (if LiveIn(old(clients), id) && old(clients[id].cefBrowser).Some?
         then [SetWindowlessFrameRate(old(clients[id].cefBrowser.value), videoFps)] else [])
      ensures tasks == old(tasks) && State() == old(State())
    {
      clients := Probe(clients, id);
      var c := clients[id];
      if c != null && c.cefBrowser.Some? {
        hostCalls := hostCalls + [SetWindowlessFrameRate(c.cefBrowser.value, videoFps)];
      }
      answered := answered + [Finished(r, NoReply)];
    }

    /**
     * SignalBeginFrame: for a live session, a begin-frame task is posted for
     * its browser, a begin-frame call already parked is finished, and this
     * call is parked in its place; otherwise the call is finished at once.
     */
    method SignalBeginFrame(id: nat, r: Token, reply: BeginFrameReply)
      requires Valid()
      requires LiveIn(clients, id) ==> clients[id].Fresh(r)
      modifies this, Target(id)
      ensures Valid()
      ensures clients == Probe(old(clients), id)
      ensures !LiveIn(old(clients), id) ==> answered == old(answered) + [Finished(r, NoReply)] && tasks == old(tasks)
      ensures LiveIn(old(clients), id) ==>
        && answered == old(answered)
        && tasks == old(tasks) + (if old(clients[id].cefBrowser).Some?
             then [OnBrowser(old(clients[id].cefBrowser.value), SendExternalBeginFrame)] else [])
        && clients[id].beginFrame == Slot(Some(r), Some(reply), true)
        && clients[id].finished == old(clients[id].finished) +
             (if old(clients[id].beginFrame.armed)
              then [Finished(old(clients[id].beginFrame.reactor.value), BeginFrame(old(clients[id].beginFrame.reply.value)))]
              else [])
      ensures LiveIn(old(clients), id) ==>
        && clients[id].View() == old(clients[id].View()).(beginFrame := Slot(Some(r), Some(reply), true))
        && clients[id].Settings() == old(clients[id].Settings())
      ensures hostCalls == old(hostCalls) && State() == old(State())
    {
      clients := Probe(clients, id);
      var c := clients[id];
      if c == null {
        answered := answered + [Finished(r, NoReply)];
        return;
      }
      ExecuteOnBrowser(c.cefBrowser, SendExternalBeginFrame);
      c.ParkBeginFrame(r, reply);
    }

    /** OnAudioStreamStarted: a live session parks the call, replacing any parked one; otherwise it is finished at once. */
    method OnAudioStreamStarted(id: nat, r: Token, reply: StartedReply)
      requires Valid()
      requires LiveIn(clients, id) ==> clients[id].Fresh(r)
      modifies this, Target(id)
      ensures Valid()
      ensures clients == Probe(old(clients), id)
      ensures !LiveIn(old(clients), id) ==> answered == old(answered) + [Finished(r, NoReply)]
      ensures LiveIn(old(clients), id) ==>
        answered == old(answered) && clients[id].started == Slot(Some(r), Some(reply), true)
        && clients[id].finished == old(clients[id].finished)
      ensures LiveIn(old(clients), id) ==>
        && clients[id].View() == old(clients[id].View()).(started := Slot(Some(r), Some(reply), true))
        && clients[id].Settings() == old(clients[id].Settings())
      ensures tasks == old(tasks) && hostCalls == old(hostCalls) && State() == old(State())
    {
      clients := Probe(clients, id);
      var c := clients[id];
      if c == null {
        answered := answered + [Finished(r, NoReply)];
        return;
      }
      c.ArmStarted(r, reply);
    }

    /** OnAudioStreamPacket: like Started, and the request's channel count is recorded on the session. */
    method OnAudioStreamPacket(id: nat, channels: int, r: Token, reply: PacketReply)
      requires Valid()
      requires LiveIn(clients, id) ==> clients[id].Fresh(r)
      modifies this, Target(id)
      ensures Valid()
      ensures clients == Probe(old(clients), id)
      ensures !LiveIn(old(clients), id) ==> answered == old(answered) + [Finished(r, NoReply)]
      ensures LiveIn(old(clients), id) ==>
        answered == old(answered) && clients[id].packet == Slot(Some(r), Some(reply), true)
        && clients[id].channels == channels && clients[id].finished == old(clients[id].finished)
      ensures LiveIn(old(clients), id) ==>
        && clients[id].View() == old(clients[id].View()).(packet := Slot(Some(r), Some(reply), true))
        && clients[id].Settings() == old(clients[id].Settings()).(channels := channels)
      ensures tasks == old(tasks) && hostCalls == old(hostCalls) && State() == old(State())
    {
      clients := Probe(clients, id);
      var c := clients[id];
      if c == null {
        answered := answered + [Finished(r, NoReply)];
        return;
      }
      c.ArmPacket(r, reply, channels);
    }

    /** OnAudioStreamStopped: like Started, for the audio-stopped slot. */
    method OnAudioStreamStopped(id: nat, r: Token, reply: StoppedReply)
      requires Valid()
      requires LiveIn(clients, id) ==> clients[id].Fresh(r)
      modifies this, Target(id)
      ensures Valid()
      ensures clients == Probe(old(clients), id)
      ensures !LiveIn(old(clients), id) ==> answered == old(answered) + [Finished(r, NoReply)]
      ensures LiveIn(old(clients), id) ==>
        answered == old(answered) && clients[id].stopped == Slot(Some(r), Some(reply), true)
        && clients[id].finished == old(clients[id].finished)
      ensures LiveIn(old(clients), id) ==>
        && clients[id].View() == old(clients[id].View()).(stopped := Slot(Some(r), Some(reply), true))
        && clients[id].Settings() == old(clients[id].Settings())
      ensures tasks == old(tasks) && hostCalls == old(hostCalls) && State() == old(State())
    {
      clients := Probe(clients, id);
      var c := clients[id];
      if c == null {
        answered := answered + [Finished(r, NoReply)];
        return;
      }
      c.ArmStopped(r, reply);
    }

    /**
     * RequestPaint, for a live session: a begin-frame task is posted for its
     * browser; then the call is parked unless a paint call is already
     * parked, in which case it is finished at once and the parked one kept.
     */
    method RequestPaint(id: nat, r: Token, reply: PaintReply)
      requires Valid()
      requires LiveIn(clients, id) && clients[id].Fresh(r)
      modifies this, Target(id)
      ensures Valid()
      ensures clients == old(clients)
      ensures tasks == old(tasks) + (if old(clients[id].cefBrowser).Some?
        then [OnBrowser(old(clients[id].cefBrowser.value), SendExternalBeginFrame)] else [])
      ensures old(clients[id].paint.armed) ==>
        answered == old(answered) + [Finished(r, NoReply)] && clients[id].paint == old(clients[id].paint)
      ensures !old(clients[id].paint.armed) ==>
        answered == old(answered) && clients[id].paint == Slot(Some(r), Some(reply), true)
      ensures clients[id].finished == old(clients[id].finished)
      ensures clients[id].View() == old(clients[id].View()).(paint := clients[id].paint)
      ensures clients[id].Settings() == old(clients[id].Settings())
      ensures hostCalls == old(hostCalls) && State() == old(State())
    {
      var c := clients[id];
      ExecuteOnBrowser(c.cefBrowser, SendExternalBeginFrame);
      if c.paint.armed {
        answered := answered + [Finished(r, NoReply)];
        return;
      }
      c.ArmPaint(r, reply);
    }

    /**
     * DestroyBrowserSource, for a live session: the browser is hidden and
     * closed by a posted task; a parked paint call is finished with a size
     * of 0 x 0; the session drops its browser and leaves the registry.
     * `async` chooses whether the handler waits for the task; the wait is
     * not part of this model.
     */
    method DestroyBrowserSource(id: nat, async: bool, r: Token)
      requires Valid()
      modifies this, Target(id)
      ensures Valid()
      ensures answered == old(answered) + [Finished(r, NoReply)]
      ensures !LiveIn(old(clients), id) ==> clients == Probe(old(clients), id) && tasks == old(tasks)
      ensures LiveIn(old(clients), id) ==>
        && clients == old(clients) - {id}
        && tasks == old(tasks) + (if old(clients[id].cefBrowser).Some?
             then [OnBrowser(old(clients[id].cefBrowser.value), HideAndClose)] else [])
        && old(clients[id]).cefBrowser == None
        && !old(clients[id]).paint.armed
        && (old(clients[id].paint.armed) ==>
             old(clients[id]).finished == old(clients[id].finished) +
               [Finished(old(clients[id].paint.reactor.value),
                 Paint(old(clients[id].paint.reply.value).(width := 0, height := 0)))])
        && (!old(clients[id].paint.armed) ==>
             old(clients[id]).finished == old(clients[id].finished) && old(clients[id]).paint == old(clients[id].paint))
        && old(clients[id]).View() == old(clients[id].View()).(paint := old(clients[id]).paint)
        && old(clients[id]).Settings() == old(clients[id].Settings()).(cefBrowser := None)
      ensures hostCalls == old(hostCalls) && State() == old(State())
    {
      clients := Probe(clients, id);
      var c := clients[id];
      if c == null {
        answered := answered + [Finished(r, NoReply)];
        return;
      }
      ExecuteOnBrowser(c.cefBrowser, HideAndClose);
      c.CancelPaint();
      c.SetBrowser(None);
      clients := clients - {id};
      answered := answered + [Finished(r, NoReply)];
    }

    /** safeCloseHandle on the client process handle: a valid handle is closed and nulled; any other is left alone. */
    method SafeCloseHandle()
      modifies this
      ensures IsValidHandleValue(old(clientProc)) ==>
        clientProc == NullHandle && closedHandles == old(closedHandles) + [old(clientProc)]
      ensures !IsValidHandleValue(old(clientProc)) ==>
        clientProc == old(clientProc) && closedHandles == old(closedHandles)
      ensures !IsValidHandleValue(clientProc)
      ensures shutdown == old(shutdown) && managerRunning == old(managerRunning)
      ensures shutdownThreads == old(shutdownThreads) && serverStopped == old(serverStopped)
      ensures clients == old(clients) && tasks == old(tasks) && answered == old(answered)
    {
      if IsValidHandleValue(clientProc) {
        closedHandles := closedHandles + [clientProc];
        clientProc := NullHandle;
      }
    }

    /**
     * terminateCEF: while the manager thread runs, a quit task is posted
     * and the thread joined. Posting is taken to succeed at once.
     */
    method TerminateCEF()
      modifies this
      ensures old(managerRunning) ==> tasks == old(tasks) + [QuitMessageLoop]
      ensures !old(managerRunning) ==> tasks == old(tasks)
      ensures !managerRunning
      ensures State() == old(State()).(managerRunning := false)
      ensures clients == old(clients) && answered == old(answered)
    {
      if managerRunning {
        tasks := tasks + [QuitMessageLoop];
        managerRunning := false;
      }
    }

    /**
     * MonitorClient, once the plugin's process has exited (the wait is not
     * modelled): `procHandle` is what OpenProcess returned. Unless the shutdown
     * handler got there first, the engine is stopped and a server shutdown
     * thread started.
     */
    method MonitorClient(procHandle: Handle)
      modifies this
      ensures clientProc == procHandle
      ensures old(shutdown) ==>
        tasks == old(tasks) && shutdownThreads == old(shutdownThreads) && managerRunning == old(managerRunning)
      ensures !old(shutdown) ==>
        shutdownThreads == old(shutdownThreads) + 1 && !managerRunning
        && tasks == old(tasks) + (if old(managerRunning) then [QuitMessageLoop] else [])
      ensures shutdown == old(shutdown) && closedHandles == old(closedHandles)
      ensures clients == old(clients) && answered == old(answered)
    {
      clientProc := procHandle;
      if !shutdown {
        TerminateCEF();
        shutdownThreads := shutdownThreads + 1;
      }
    }

    /**
     * ShutdownBrowserCEF: the engine is stopped, the shutdown flag set, the
     * client process handle closed, and a server shutdown thread started.
     */
    method ShutdownBrowserCEF(r: Token)
      modifies this
      ensures shutdown && !managerRunning && !IsValidHandleValue(clientProc)
      ensures tasks == old(tasks) + (if old(managerRunning) then [QuitMessageLoop] else [])
      ensures shutdownThreads == old(shutdownThreads) + 1
      ensures answered == old(answered) + [Finished(r, NoReply)]
      ensures clients == old(clients)
    {
      TerminateCEF();
      shutdown := true;
      SafeCloseHandle();
      shutdownThreads := shutdownThreads + 1;
      answered := answered + [Finished(r, NoReply)];
    }

    /** ShutdownServer, run by a shutdown thread: the process handle is closed if set, and the server stopped. */
    method ShutdownServer()
      modifies this
      ensures serverStopped && !IsValidHandleValue(clientProc)
      ensures shutdown == old(shutdown) && managerRunning == old(managerRunning)
      ensures shutdownThreads == old(shutdownThreads)
      ensures clients == old(clients) && tasks == old(tasks)
    {
      if clientProc != NullHandle {
        SafeCloseHandle();
      }
      serverStopped := true;
    }
  }

  /**
   * The client the create task puts in the registry: built with the request's
   * hardware-acceleration and audio switches, given its size, audio routing
   * and CSS, and then the browser CreateBrowserSync returned.
   */
  method NewSession(req: SessionRequest, created: Option<Browser>) returns (c: BrowserClient)
    ensures fresh(c) && c.Valid()
    ensures c.Settings() == Session(req.width, req.height, req.rerouteAudio, created, c.channels, req.css)
    ensures c.sharingAvailable == req.hwaccel
    ensures c.View() == Waiters(Idle(), Idle(), Idle(), Idle(), Idle())
  {
    c := new BrowserClient(req.hwaccel, req.rerouteAudio);
    c.Configure(req.width, req.height, req.rerouteAudio, req.css);
    c.SetBrowser(created);
  }

  /**
   * After the shutdown handler has run, the monitor does not stop the
   * engine or start a second shutdown thread.
   */
  method ShutdownThenMonitor(s: BrowserServer, r: Token, procHandle: Handle)
    modifies s
    ensures s.shutdown && s.shutdownThreads == old(s.shutdownThreads) + 1
    ensures s.tasks == old(s.tasks) + (if old(s.managerRunning) then [QuitMessageLoop] else [])
  {
    s.ShutdownBrowserCEF(r);
    s.MonitorClient(procHandle);
  }

  /**
   * As written, UpdateVideoFPS crashes for a session whose browser could not
   * be created: the create task leaves a live entry with a null browser, and
   * the handler dereferences it. The corrected handler answers the call.
   */
  method FailedCreateThenUpdateVideoFPS(req: SessionRequest)
    returns (asWritten: Outcome, s: BrowserServer)
    ensures asWritten == NullDereference
    ensures LiveIn(s.clients, req.id) && s.answered == [Finished(1, NoReply), Finished(3, NoReply)]
  {
    s := new BrowserServer(BuildFlags(true, true));
    s.CreateBrowserSource(req, 1);
    s.RunTask(None);
    asWritten := s.UpdateVideoFPSAsWritten(req.id, 60, 2);
    s.UpdateVideoFPS(req.id, 60, 3);
  }
}
