/**
 * The plugin-side browser source of obs-browser-source.cpp/.hpp: its
 * settings and the flags that decide when a browser is created, shown or
 * asked for a frame; its textures; the legacy audio streams; and the
 * global list every source is linked into.
 *
 * The calls a source makes on the browser server go through the gRPC
 * client stub (`bc`), which is not part of this model; each is logged as a
 * `Call` in `sent`.
 */
module BrowserSources {
  import opened Wrappers
  import opened AudioLayouts
  import opened UrlRewrite

  /** A `gs_texture_t*` that is not null. */
  type Texture = nat

  /** An `obs_source_t*` of an audio line. */
  type AudioSource = nat

  /** The build switches the source reads: `_WIN32`, SHARED_TEXTURE_SUPPORT_ENABLED and the URL switches. */
  datatype SourceBuild = SourceBuild(windows: bool, sharedTexture: bool, url: UrlBuild)

  /** The calls a source makes on the browser server. */
  datatype Call =
    | CreateCall(hwaccel: bool, rerouteAudio: bool, width: int, height: int,
                 fps: int, fpsCustom: bool, canvasFps: real, url: string, css: string)
    | AudioStartedCall
    | DestroyCall(async: bool)
    | SetShowingCall(showing: bool)
    | SetActiveCall(active: bool)
    | RefreshCall
    | SignalBeginFrameCall
    | RequestPaintCall

  /** The values Update reads from the source's settings object. */
  datatype Settings = Settings(
    isMediaFlag: bool, isLocalFile: bool, width: int, height: int,
    fpsCustom: bool, fps: int, shutdown: bool, restart: bool,
    css: string, url: string, localFile: string, rerouteAudio: bool)

  /** The fields Update compares and sets. */
  datatype SourceConfig = SourceConfig(
    isMediaFlag: bool, isLocal: bool, width: int, height: int,
    fpsCustom: bool, fps: int, shutdownOnInvisible: bool, restart: bool,
    css: string, url: string, rerouteAudio: bool)

  /** The flags that drive creation, showing and frame requests. */
  datatype Flags = Flags(createBrowser: bool, firstUpdate: bool, resetFrame: bool, isShowing: bool)

  /** The two textures and the textures destroyed so far. */
  datatype Textures = Textures(texture: Option<Texture>, extra: Option<Texture>, destroyed: seq<Texture>)

  /** A legacy audio stream (struct AudioStream). */
  datatype AudioStream = AudioStream(source: Option<AudioSource>, speakers: SpeakerLayout, channels: int, sampleRate: int)

  /** A value-initialised AudioStream, as `audio_streams[id]` inserts it. */
  const NoStream := AudioStream(None, SpeakersUnknown, 0, 0)

  /**
   * The settings Update would install: the local-file or remote URL resolved
   * as UrlRewrite describes; `uriEncode` stands for CefURIEncode.
   */
  function Candidate(st: Settings, uriEncode: string -> string, build: UrlBuild): (c: SourceConfig)
    ensures st.isLocalFile ==> c.isLocal
    ensures !st.isLocalFile && !StartsWithIgnoringCase(st.url, "http://absolute/") ==> !c.isLocal && c.url == st.url
    ensures (c.width, c.height, c.fps, c.fpsCustom) == (st.width, st.height, st.fps, st.fpsCustom)
    ensures (c.css, c.rerouteAudio, c.shutdownOnInvisible) == (st.css, st.rerouteAudio, st.shutdown)
  {
    var raw := if st.isLocalFile then st.localFile else st.url;
    var r := ResolveUrl(st.isLocalFile, raw, uriEncode(raw), build);
    SourceConfig(st.isMediaFlag, r.isLocal, st.width, st.height, st.fpsCustom, st.fps,
                 st.shutdown, st.restart, st.css, r.url, st.rerouteAudio)
  }

  /** DestroyTextures on the texture state: with a texture, both textures are destroyed (the extra one first). */
  function AfterDestroyTextures(t: Textures): (r: Textures)
    ensures r.texture.None? && (t.texture.None? ==> r == t)
    ensures t.texture.Some? ==> r.extra.None? && |r.destroyed| == |t.destroyed| + (if t.extra.Some? then 2 else 1)
  {
    if t.texture.None? then t
    else Textures(None, None, t.destroyed + (if t.extra.Some? then [t.extra.value] else []) + [t.texture.value])
  }

  /** DestroyTextures is idempotent: a second call changes nothing. */
  lemma DestroyTexturesIdempotent(t: Textures)
    ensures AfterDestroyTextures(AfterDestroyTextures(t)) == AfterDestroyTextures(t)
  {
  }

  /** The list without the first occurrence of `x` (vector::erase of the first match). */
  function RemoveFirst(xs: seq<AudioSource>, x: AudioSource): (r: seq<AudioSource>)
    ensures x !in xs ==> r == xs
    ensures x in xs ==> |r| == |xs| - 1
  {
    if |xs| == 0 then xs
    else if xs[0] == x then xs[1..]
    else [xs[0]] + RemoveFirst(xs[1..], x)
  }

  /** RemoveFirst drops the first `x` and keeps the order of the rest. */
  lemma {:induction false} RemoveFirstAt(xs: seq<AudioSource>, x: AudioSource, k: nat)
    requires k < |xs| && xs[k] == x && x !in xs[..k]
    ensures RemoveFirst(xs, x) == xs[..k] + xs[k + 1..]
    ensures multiset(RemoveFirst(xs, x)) == multiset(xs) - multiset{x}
  {
    if k > 0 {
      assert xs[0] != x by { assert xs[0] == xs[..k][0]; }
      assert x !in xs[1..][..k - 1] by { assert xs[1..][..k - 1] == xs[..k][1..]; }
      RemoveFirstAt(xs[1..], x, k - 1);
      assert xs[..k] == [xs[0]] + xs[1..][..k - 1];
      assert xs[k + 1..] == xs[1..][k..];
      assert xs == [xs[0]] + xs[1..];
    } else {
      assert xs == [xs[0]] + xs[1..];
    }
  }

  /** The settings a fresh source holds, from the field initialisers. */
  const InitialConfig := SourceConfig(false, false, 0, 0, false, 0, false, false, "", "", true)

  /** The request CreateBrowser sends for the settings `c`. */
  function CreateRequest(hwaccel: bool, c: SourceConfig, canvasFps: real): (r: Call)
    ensures r.CreateCall? && r.hwaccel == hwaccel && r.canvasFps == canvasFps
    ensures (r.width, r.height, r.fps, r.fpsCustom) == (c.width, c.height, c.fps, c.fpsCustom)
    ensures (r.url, r.css, r.rerouteAudio) == (c.url, c.css, c.rerouteAudio)
  {
    CreateCall(hwaccel, c.rerouteAudio, c.width, c.height, c.fps, c.fpsCustom, canvasFps, c.url, c.css)
  }

  /**
   * A browser source. The struct's settings fields are kept together as
   * `config`, its flags as `flags` and its two textures as `textures`.
   */
  class BrowserSource {
    /** The plugin's `hwaccel` as it stood when the source was made. */
    const hwaccel: bool
    const build: SourceBuild

    /** The next source of the global list, and where the pointer to this one is stored. */
    var next: BrowserSource?
    var prevNext: Link

    var config: SourceConfig
    var flags: Flags
    var textures: Textures
    /** The id of the last legacy audio stream started. */
    var id: int
    /** obs_source_set_audio_active, as last set. */
    var audioActive: bool
    var audioStreams: map<int, AudioStream>
    var audioSources: seq<AudioSource>
    /** The calls made on the browser server, oldest first. */
    var sent: seq<Call>

    /** The field initialisers of the struct; the source is not linked yet. */
    constructor(hw: bool, sourceBuild: SourceBuild)
      ensures hwaccel == hw && build == sourceBuild
      ensures next == null && prevNext == Unlinked
      ensures config == InitialConfig && flags == Flags(false, true, false, false)
      ensures textures == Textures(None, None, [])
      ensures id == 0 && audioStreams == map[] && audioSources == [] && sent == []
    {
      hwaccel, build := hw, sourceBuild;
      next, prevNext := null, Unlinked;
      config, flags, textures := InitialConfig, Flags(false, true, false, false), Textures(None, None, []);
      id, audioActive, audioStreams, audioSources, sent := 0, false, map[], [], [];
    }

    /** DestroyTextures: with a texture, the extra texture and then the texture are destroyed and nulled. */
    method DestroyTextures()
      modifies this`textures
      ensures textures == AfterDestroyTextures(old(textures))
    {
      if textures.texture.Some? {
        if textures.extra.Some? {
          textures := textures.(extra := None, destroyed := textures.destroyed + [textures.extra.value]);
        }
        textures := textures.(texture := None, destroyed := textures.destroyed + [textures.texture.value]);
      }
    }

    /** DestroyBrowser: the server is asked to destroy this source's session. */
    method DestroyBrowser(async: bool)
      modifies this`sent
      ensures sent == old(sent) + [DestroyCall(async)]
    {
      sent := sent + [DestroyCall(async)];
    }

    /** CreateBrowser: the server is asked for a session with the current settings, then for audio if rerouted. */
    method CreateBrowser(canvasFps: real) returns (created: bool)
      modifies this`sent
      ensures created
      ensures sent == old(sent) + [CreateRequest(hwaccel, config, canvasFps)]
        + (if config.rerouteAudio then [AudioStartedCall] else [])
    {
      sent := sent + [CreateRequest(hwaccel, config, canvasFps)];
      if config.rerouteAudio {
        sent := sent + [AudioStartedCall];
      }
      created := true;
    }

    /**
     * Update. With settings (`st`), the candidate settings are compared with
     * the current ones, and when every one is equal nothing happens; else
     * they are installed. Then (also without settings) the browser is
     * destroyed asynchronously, the textures destroyed, and a browser
     * requested unless the source shuts down when invisible and is not
     * showing (`sourceShowing` is obs_source_showing).
     */
    method Update(st: Option<Settings>, uriEncode: string -> string, sourceShowing: bool)
      modifies this`config, this`audioActive, this`sent, this`textures, this`flags
      ensures st.Some? && Candidate(st.value, uriEncode, build.url) == old(config) ==>
        && config == old(config) && flags == old(flags) && textures == old(textures)
        && sent == old(sent) && audioActive == old(audioActive)
      ensures st.None? || Candidate(st.value, uriEncode, build.url) != old(config) ==>
        && config == (if st.Some? then Candidate(st.value, uriEncode, build.url) else old(config))
        && audioActive == (if st.Some? then st.value.rerouteAudio else old(audioActive))
        && sent == old(sent) + [DestroyCall(true)]
        && textures == AfterDestroyTextures(old(textures))
        && flags == old(flags).(
             createBrowser := old(flags.createBrowser) || !config.shutdownOnInvisible || sourceShowing,
             firstUpdate := false)
    {
      if st.Some? {
        var s := st.value;
        var raw := if s.isLocalFile then s.localFile else s.url;
        var r := ResolveSourceUrl(s.isLocalFile, raw, uriEncode, build.url);
        var candidate := SourceConfig(s.isMediaFlag, r.isLocal, s.width, s.height, s.fpsCustom, s.fps,
                                      s.shutdown, s.restart, s.css, r.url, s.rerouteAudio);
        if candidate == config {
          return;
        }
        config := candidate;
        audioActive := config.rerouteAudio;
      }
      DestroyBrowser(true);
      DestroyTextures();
      if !config.shutdownOnInvisible || sourceShowing {
        flags := flags.(createBrowser := true);
      }
      flags := flags.(firstUpdate := false);
    }

    /**
     * SetShowing. The flag is always recorded. A source that shuts down
     * when invisible is updated when shown and has its browser destroyed
     * when hidden; any other forwards the visibility to the server, and on
     * Windows with shared textures a shown source at the canvas rate stops
     * waiting for a frame.
     */
    method SetShowing(showing: bool, uriEncode: string -> string, sourceShowing: bool)
      modifies this`config, this`audioActive, this`sent, this`textures, this`flags
      ensures flags.isShowing == showing && config == old(config) && audioActive == old(audioActive)
      ensures old(config.shutdownOnInvisible) && !showing ==>
        sent == old(sent) + [DestroyCall(true)] && textures == old(textures)
        && flags == old(flags).(isShowing := showing)
      ensures old(config.shutdownOnInvisible) && showing ==>
        sent == old(sent) + [DestroyCall(true)]
        && textures == AfterDestroyTextures(old(textures))
        && flags == old(flags).(isShowing := showing, createBrowser := old(flags.createBrowser) || sourceShowing,
                                firstUpdate := false)
      ensures !old(config.shutdownOnInvisible) ==>
        sent == old(sent) + [SetShowingCall(showing)] && textures == old(textures)
        && flags == old(flags).(isShowing := showing,
             resetFrame := if build.windows && build.sharedTexture && showing && !config.fpsCustom
                           then false else old(flags.resetFrame))
    {
      flags := flags.(isShowing := showing);
      if config.shutdownOnInvisible {
        if showing {
          Update(None, uriEncode, sourceShowing);
        } else {
          DestroyBrowser(true);
        }
      } else {
        sent := sent + [SetShowingCall(showing)];
        if build.windows && build.sharedTexture && showing && !config.fpsCustom {
          flags := flags.(resetFrame := false);
        }
      }
    }

    /** SetActive: forwarded to the server. */
    method SetActive(active: bool)
      modifies this`sent
      ensures sent == old(sent) + [SetActiveCall(active)]
    {
      sent := sent + [SetActiveCall(active)];
    }

    /** Refresh: forwarded to the server. */
    method Refresh()
      modifies this`sent
      ensures sent == old(sent) + [RefreshCall]
    {
      sent := sent + [RefreshCall];
    }

    /**
     * Tick: a pending browser request is sent (CreateBrowser always
     * succeeds) and cleared; on Windows with shared textures a source at the
     * canvas rate gets ready for the next frame.
     */
    method Tick(canvasFps: real)
      modifies this`sent, this`flags
      ensures !flags.createBrowser
      ensures old(flags.createBrowser) ==>
        sent == old(sent) + [CreateRequest(hwaccel, config, canvasFps)]
          + (if config.rerouteAudio then [AudioStartedCall] else [])
      ensures !old(flags.createBrowser) ==> sent == old(sent)
      ensures flags == old(flags).(createBrowser := false,
        resetFrame := if build.windows && build.sharedTexture && !config.fpsCustom then true else old(flags.resetFrame))
    {
      if flags.createBrowser {
        var created := CreateBrowser(canvasFps);
        if created {
          flags := flags.(createBrowser := false);
        }
      }
      if build.windows && build.sharedTexture && !config.fpsCustom {
        flags := flags.(resetFrame := true);
      }
    }

    /**
     * SignalBeginFrame (Windows with shared textures): only a source waiting
     * for a frame asks the server for one, by begin-frame with hardware
     * acceleration and by paint request without; it then stops waiting.
     */
    method SignalBeginFrame()
      modifies this`sent, this`flags
      ensures flags == old(flags).(resetFrame := false)
      ensures old(flags.resetFrame) ==> sent == old(sent) + [if hwaccel then SignalBeginFrameCall else RequestPaintCall]
      ensures !old(flags.resetFrame) ==> sent == old(sent)
    {
      if flags.resetFrame {
        if hwaccel {
          sent := sent + [SignalBeginFrameCall];
        } else {
          sent := sent + [RequestPaintCall];
        }
        flags := flags.(resetFrame := false);
      }
    }

    /**
     * Legacy OnAudioStreamStarted: the stream `streamId` is looked up
     * (inserted if absent); a stream without an audio line gets `line`,
     * which joins the audio sources; the layout and rate are recorded.
     */
    method OnAudioStreamStarted(streamId: int, layout: ChannelLayout, sampleRate: int, line: AudioSource)
      modifies this`id, this`audioStreams, this`audioSources
      ensures id == streamId && streamId in audioStreams
      ensures var before := if streamId in old(audioStreams) then old(audioStreams)[streamId] else NoStream;
        && audioStreams == old(audioStreams)[streamId := AudioStream(
             if before.source.Some? then before.source else Some(line),
             GetSpeakerLayout(layout), SpeakerChannels(GetSpeakerLayout(layout)), sampleRate)]
        && audioSources == old(audioSources) + (if before.source.Some? then [] else [line])
    {
      id := streamId;
      var stream := if streamId in audioStreams then audioStreams[streamId] else NoStream;
      if stream.source.None? {
        stream := stream.(source := Some(line));
        audioSources := audioSources + [line];
      }
      var speakers := GetSpeakerLayout(layout);
      stream := stream.(speakers := speakers, channels := SpeakerChannels(speakers), sampleRate := sampleRate);
      audioStreams := audioStreams[streamId := stream];
    }

    /**
     * Legacy OnAudioStreamStopped: an unknown stream is ignored; otherwise
     * its audio line leaves the audio sources (the first match only) and the
     * stream is erased.
     */
    method OnAudioStreamStopped(streamId: int)
      modifies this`audioStreams, this`audioSources
      ensures streamId !in old(audioStreams) ==> audioStreams == old(audioStreams) && audioSources == old(audioSources)
      ensures streamId in old(audioStreams) ==>
        && audioStreams == old(audioStreams) - {streamId}
        && audioSources == (if old(audioStreams)[streamId].source.Some?
             then RemoveFirst(old(audioSources), old(audioStreams)[streamId].source.value)
             else old(audioSources))
    {
      if streamId !in audioStreams {
        return;
      }
      var stream := audioStreams[streamId];
      var i := 0;
      while i < |audioSources|
        invariant 0 <= i <= |audioSources|
        invariant audioSources == old(audioSources) && audioStreams == old(audioStreams)
        invariant stream.source.Some? ==> stream.source.value !in audioSources[..i]
      {
        if stream.source == Some(audioSources[i]) {
          RemoveFirstAt(audioSources, audioSources[i], i);
          audioSources := audioSources[..i] + audioSources[i + 1..];
          break;
        }
        i := i + 1;
      }
      if stream.source.Some? && i == |old(audioSources)| {
        assert audioSources[..i] == audioSources;
      }
      audioStreams := audioStreams - {streamId};
    }
  }

  /** Applying the same settings twice: the second Update finds nothing changed and sends nothing. */
  method UpdateSettles(src: BrowserSource, st: Settings, uriEncode: string -> string, sourceShowing: bool)
    modifies src`config, src`audioActive, src`sent, src`textures, src`flags
    ensures src.config == Candidate(st, uriEncode, src.build.url)
    ensures src.sent == old(src.sent)
      + (if Candidate(st, uriEncode, src.build.url) == old(src.config) then [] else [DestroyCall(true)])
  {
    src.Update(Some(st), uriEncode, sourceShowing);
    src.Update(Some(st), uriEncode, sourceShowing);
  }

  /**
   * New settings on a source that stays alive when hidden: the next Tick
   * creates a browser with exactly those settings.
   */
  method UpdateThenTick(src: BrowserSource, st: Settings, uriEncode: string -> string, sourceShowing: bool, canvasFps: real)
    requires !st.shutdown && Candidate(st, uriEncode, src.build.url) != src.config
    modifies src`config, src`audioActive, src`sent, src`textures, src`flags
    ensures var c := Candidate(st, uriEncode, src.build.url);
      src.sent == old(src.sent) + [DestroyCall(true), CreateRequest(src.hwaccel, c, canvasFps)]
        + (if st.rerouteAudio then [AudioStartedCall] else [])
    ensures !src.flags.createBrowser && !src.flags.firstUpdate
  {
    src.Update(Some(st), uriEncode, sourceShowing);
    src.Tick(canvasFps);
  }

  /** The constructor: a source with the field defaults, linked at the head of the list. */
  method CreateSource(list: SourceList, hw: bool, sourceBuild: SourceBuild) returns (s: BrowserSource)
    requires list.Valid()
    modifies list, list.first
    ensures fresh(s) && list.Valid() && list.nodes == [s] + old(list.nodes)
    ensures s.config == InitialConfig && s.flags == Flags(false, true, false, false) && s.sent == []
  {
    s := new BrowserSource(hw, sourceBuild);
    list.Insert(s);
  }

  /**
   * The destructor: the browser is destroyed synchronously, the textures
   * destroyed, and the source unlinked.
   */
  method DestroySource(list: SourceList, s: BrowserSource, ghost k: nat)
    requires list.Valid() && k < |list.nodes| && list.nodes[k] == s
    modifies list, s`sent, s`textures, list.Neighbours(s)`next, list.Neighbours(s)`prevNext
    ensures list.Valid() && list.nodes == old(list.nodes[..k] + list.nodes[k + 1..])
    ensures s.sent == old(s.sent) + [DestroyCall(false)]
    ensures s.textures == AfterDestroyTextures(old(s.textures))
  {
    ghost var around := list.Neighbours(s);
    s.DestroyBrowser(false);
    s.DestroyTextures();
    assert list.Neighbours(s) == around;
    list.Remove(s, k);
  }

  /** Where a source's `p_prev_next` points: nowhere yet, the list head, or a source's `next`. */
  datatype Link = Unlinked | Head | NextOf(node: BrowserSource)

  /** The global list `first_browser`, with the sources in order as a ghost sequence. */
  class SourceList {
    var first: BrowserSource?
    ghost var nodes: seq<BrowserSource>

    /** The links agree with `nodes`: each `next`, each `p_prev_next`, and no source twice. */
    ghost predicate Valid()
      reads this, nodes
    {
      && first == (if |nodes| == 0 then null else nodes[0])
      && (|nodes| > 0 ==> nodes[|nodes| - 1].next == null)
      && (forall i :: 0 < i < |nodes| ==> nodes[i - 1].next == nodes[i])
      && (|nodes| > 0 ==> nodes[0].prevNext == Head)
      && (forall i :: 0 < i < |nodes| ==> nodes[i].prevNext == NextOf(nodes[i - 1]))
      && (forall i, j :: 0 <= i < j < |nodes| ==> nodes[i] != nodes[j])
    }

    constructor()
      ensures first == null && nodes == [] && Valid()
    {
      first := null;
      nodes := [];
    }

    /** The constructor's splice: `s` becomes the head; the old head's back-link points at `s.next`. */
    method Insert(s: BrowserSource)
      requires Valid() && s !in nodes
      modifies this, s`next, s`prevNext, (if first != null then {first} else {})`prevNext
      ensures Valid() && nodes == [s] + old(nodes)
      ensures s.config == old(s.config) && s.flags == old(s.flags) && s.sent == old(s.sent)
    {
      ghost var ns := nodes;
      s.prevNext := Head;
      s.next := first;
      if first != null {
        first.prevNext := NextOf(s);
      }
      first := s;
      nodes := [s] + nodes;
      forall i | 1 <= i < |nodes|
        ensures nodes[i].next == (if i + 1 < |nodes| then nodes[i + 1] else null)
        ensures nodes[i].prevNext == NextOf(nodes[i - 1])
      {
        assert nodes[i] == ns[i - 1] != s;
        assert nodes[i].next == old(ns[i - 1].next);
        if i > 1 {
          assert ns[i - 1] != ns[0];
          assert nodes[i].prevNext == old(ns[i - 1].prevNext);
        }
      }
    }

    /** The sources whose links unlinking `s` rewrites. */
    ghost function Neighbours(s: BrowserSource): set<BrowserSource>
      reads s
    {
      (if s.next != null then {s.next} else {}) + (if s.prevNext.NextOf? then {s.prevNext.node} else {})
    }

    /**
     * The destructor's splice: the next source's back-link takes this one's,
     * and the pointer to this one takes its `next`. The others keep their
     * order.
     */
    method Remove(s: BrowserSource, ghost k: nat)
      requires Valid() && k < |nodes| && nodes[k] == s
      modifies this, Neighbours(s)`next, Neighbours(s)`prevNext
      ensures Valid() && nodes == old(nodes[..k] + nodes[k + 1..])
      ensures s.next == old(s.next) && s.prevNext == old(s.prevNext)
    {
      ghost var ns := nodes;
      assert ns[k].next == (if k + 1 < |ns| then ns[k + 1] else null);
      assert ns[k].prevNext == (if k == 0 then Head else NextOf(ns[k - 1]));
      assert s.next != null <==> k + 1 < |ns|;
      assert s.prevNext.NextOf? <==> k > 0;
      if s.next != null {
        s.next.prevNext := s.prevNext;
      }
      if s.prevNext.NextOf? {
        s.prevNext.node.next := s.next;
      } else {
        first := s.next;
      }
      nodes := ns[..k] + ns[k + 1..];
      forall j | 0 <= j < |nodes|
        ensures nodes[j].next == (if j + 1 < |nodes| then nodes[j + 1] else null)
        ensures nodes[j].prevNext == (if j == 0 then Head else NextOf(nodes[j - 1]))
      {
        var n := if j < k then j else j + 1;
        assert nodes[j] == ns[n];
        if n != k - 1 {
          assert k == 0 || ns[n] != ns[k - 1];
          assert nodes[j].next == old(ns[n].next);
        }
        if n != k + 1 {
          assert k + 1 >= |ns| || ns[n] != ns[k + 1];
          assert nodes[j].prevNext == old(ns[n].prevNext);
        }
      }
    }
  }
}
