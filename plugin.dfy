/**
 * The plugin-side decisions of obs-browser-plugin.cpp: the defaults of a
 * new browser source, the start path of the file dialog, the calls the
 * source callbacks make, and the hardware-acceleration check with its
 * adapter enumeration.
 */
module Plugin {
  import opened Wrappers
  import opened UrlRewrite
  import opened BrowserSources

  /** The build switches the plugin reads: `_WIN32`, `__APPLE__` and SHARED_TEXTURE_SUPPORT_ENABLED. */
  datatype PluginBuild = PluginBuild(windows: bool, apple: bool, sharedTexture: bool)

  /** The default stylesheet: the string continues over several source lines. */
  const DefaultCss: string :=
    "body { background-color: rgba(0, 0, 0, 0); margin: 0px auto; overflow: hidden; }"

  /** The ranges the properties dialog offers for width, height and frame rate. */
  predicate InPropertyRanges(width: int, height: int, fps: int) {
    1 <= width <= 4096 && 1 <= height <= 4096 && 1 <= fps <= 60
  }

  /** browser_source_get_defaults, as the settings a new source reads (no local file, no media flag). */
  function Defaults(build: PluginBuild): (st: Settings)
    ensures !st.isLocalFile && st.url == "https://obsproject.com/browser-source"
    ensures st.fpsCustom <==> !build.sharedTexture
    ensures st.rerouteAudio <==> build.apple
    ensures !st.shutdown && !st.restart && st.css == DefaultCss
  {
    Settings(false, false, 800, 600, !build.sharedTexture, 30, false, false,
             DefaultCss, "https://obsproject.com/browser-source", "", build.apple)
  }

  /**
   * The defaults lie inside the dialog's ranges, and a fresh source given
   * them resolves to the remote URL and always differs from its initial
   * settings, so its first Update asks for a browser.
   */
  lemma DefaultsApply(build: PluginBuild, uriEncode: string -> string, urlBuild: UrlBuild)
    ensures var d := Defaults(build);
      && InPropertyRanges(d.width, d.height, d.fps)
      && Candidate(d, uriEncode, urlBuild).url == d.url
      && !Candidate(d, uriEncode, urlBuild).isLocal
      && Candidate(d, uriEncode, urlBuild) != InitialConfig
  {
    var d := Defaults(build);
    assert LowerAscii(d.url[5]) != LowerAscii("http://absolute/"[5]);
    RemoteUrlUnchanged(d.url, uriEncode(d.url), urlBuild);
  }

  /** The position of the last `c` in `s`, as strrchr finds it. */
  function LastIndexOf(s: string, c: char): (r: Option<nat>)
    ensures r.None? <==> c !in s
    ensures r.Some? ==> r.value < |s| && s[r.value] == c && c !in s[r.value + 1..]
  {
    if |s| == 0 then None
    else if s[|s| - 1] == c then Some(|s| - 1)
    else
      var r := LastIndexOf(s[..|s| - 1], c);
      assert s == s[..|s| - 1] + [s[|s| - 1]];
      r
  }

  /** dstr_replace(path, "\\", "/"): every backslash becomes a slash. */
  function Slashed(s: string): (r: string)
    ensures |r| == |s| && '\\' !in r
    ensures forall i :: 0 <= i < |s| ==> r[i] == (if s[i] == '\\' then '/' else s[i])
  {
    seq(|s|, i requires 0 <= i < |s| => if s[i] == '\\' then '/' else s[i])
  }

  /**
   * The start path of the file dialog: for a source with a URL, the URL
   * with backslashes turned into slashes and cut just after its last
   * slash (whole if it has none); empty otherwise.
   */
  method StartPath(url: Option<string>) returns (path: string)
    ensures url.None? || url.value == [] ==> path == []
    ensures url.Some? && url.value != [] ==>
      && var full := Slashed(url.value);
      && path <= full && '\\' !in path
      && ('/' in full ==> |path| > 0 && path[|path| - 1] == '/' && '/' !in full[|path|..])
      && ('/' !in full ==> path == full)
  {
    path := [];
    if url.Some? && url.value != [] {
      path := Slashed(url.value);
      var slash := LastIndexOf(path, '/');
      if slash.Some? {
        path := path[..slash.value + 1];
      }
    }
  }

  /** The `activate` callback: a source that restarts when active is refreshed first. */
  method Activate(bs: BrowserSource)
    modifies bs`sent
    ensures bs.sent == old(bs.sent) + (if bs.config.restart then [RefreshCall] else []) + [SetActiveCall(true)]
  {
    if bs.config.restart {
      bs.Refresh();
    }
    bs.SetActive(true);
  }

  /** The `deactivate` callback. */
  method Deactivate(bs: BrowserSource)
    modifies bs`sent
    ensures bs.sent == old(bs.sent) + [SetActiveCall(false)]
  {
    bs.SetActive(false);
  }

  /** The `show` callback; `sourceShowing` is what obs_source_showing answers meanwhile. */
  method Show(bs: BrowserSource, uriEncode: string -> string, sourceShowing: bool)
    modifies bs`config, bs`audioActive, bs`sent, bs`textures, bs`flags
    ensures bs.flags.isShowing && bs.config == old(bs.config)
    ensures !bs.config.shutdownOnInvisible ==> bs.sent == old(bs.sent) + [SetShowingCall(true)]
    ensures bs.config.shutdownOnInvisible ==> bs.sent == old(bs.sent) + [DestroyCall(true)]
  {
    bs.SetShowing(true, uriEncode, sourceShowing);
  }

  /** The `hide` callback. */
  method Hide(bs: BrowserSource, uriEncode: string -> string, sourceShowing: bool)
    modifies bs`config, bs`audioActive, bs`sent, bs`textures, bs`flags
    ensures !bs.flags.isShowing && bs.config == old(bs.config) && bs.textures == old(bs.textures)
    ensures !bs.config.shutdownOnInvisible ==> bs.sent == old(bs.sent) + [SetShowingCall(false)]
    ensures bs.config.shutdownOnInvisible ==> bs.sent == old(bs.sent) + [DestroyCall(true)]
  {
    bs.SetShowing(false, uriEncode, sourceShowing);
  }

  /** What GetDesc reports for an adapter. */
  datatype AdapterDesc = AdapterDesc(vendor: int, device: int, description: string)

  /** Microsoft's basic render driver, which is not counted. */
  predicate IsBasicRenderer(d: AdapterDesc) {
    d.vendor == 0x1414 && d.device == 0x8c
  }

  /** The adapters counted: those whose description can be read (`Some`), except the basic renderer. */
  function CountedAdapters(adapters: seq<Option<AdapterDesc>>): (n: nat)
    ensures n <= |adapters|
    ensures n == 0 <==> forall i :: 0 <= i < |adapters| ==> adapters[i].None? || IsBasicRenderer(adapters[i].value)
  {
    if |adapters| == 0 then 0
    else
      var last := adapters[|adapters| - 1];
      var n := CountedAdapters(adapters[..|adapters| - 1]);
      assert forall i :: 0 <= i < |adapters| - 1 ==> adapters[..|adapters| - 1][i] == adapters[i];
      n + (if last.Some? && !IsBasicRenderer(last.value) then 1 else 0)
  }

  /** The devices whose names disable hardware acceleration. */
  const Blacklist: seq<string> := ["Intel", "Microsoft", "Radeon HD 8850M", "Radeon HD 7660"]

  /** wstrstri(s, pat) != NULL: `pat` occurs in `s`, ignoring ASCII case. */
  predicate ContainsIgnoringCase(s: string, pat: string) {
    exists i :: 0 <= i <= |s| - |pat| && StartsWithIgnoringCase(s[i..], pat)
  }

  /** Some blacklisted name occurs in `deviceId`. */
  predicate Blacklisted(deviceId: string) {
    exists k :: 0 <= k < |Blacklist| && ContainsIgnoringCase(deviceId, Blacklist[k])
  }

  /** The blacklist applies unless the only adapter is an Intel one. */
  predicate BlacklistApplies(adapterCount: int, deviceId: string) {
    adapterCount >= 2 || !ContainsIgnoringCase(deviceId, "Intel")
  }

  /** Nothing contains a non-empty name in an empty description. */
  lemma EmptyNeverBlacklisted()
    ensures !Blacklisted("")
  {
    forall k | 0 <= k < |Blacklist|
      ensures !ContainsIgnoringCase("", Blacklist[k])
    {
      assert |Blacklist[k]| > 0;
    }
  }

  /** The plugin's statics: `hwaccel`, `adapterCount` and `deviceId`. */
  class PluginState {
    var hwaccel: bool
    var adapterCount: int
    var deviceId: string

    /** The static initialisers. */
    constructor()
      ensures !hwaccel && adapterCount == 0 && deviceId == []
    {
      hwaccel, adapterCount, deviceId := false, 0, [];
    }

    /**
     * EnumAdapterCount (Windows): without a DXGI factory nothing happens;
     * otherwise every adapter is counted except unreadable ones and the
     * basic renderer, and the first adapter, if readable, names the device.
     */
    method EnumAdapterCount(factoryOk: bool, adapters: seq<Option<AdapterDesc>>)
      modifies this`adapterCount, this`deviceId
      ensures adapterCount == old(adapterCount) + (if factoryOk then CountedAdapters(adapters) else 0)
      ensures deviceId == (if factoryOk && |adapters| > 0 && adapters[0].Some?
                           then adapters[0].value.description else old(deviceId))
    {
      if !factoryOk {
        return;
      }
      var i := 0;
      while i < |adapters|
        invariant 0 <= i <= |adapters|
        invariant adapterCount == old(adapterCount) + CountedAdapters(adapters[..i])
        invariant deviceId == (if i > 0 && adapters[0].Some? then adapters[0].value.description else old(deviceId))
      {
        assert adapters[..i + 1][..i] == adapters[..i];
        i := i + 1;
        if adapters[i - 1].None? {
          continue;
        }
        var desc := adapters[i - 1].value;
        if i == 1 {
          deviceId := desc.description;
        }
        if IsBasicRenderer(desc) {
          continue;
        }
        adapterCount := adapterCount + 1;
      }
      assert adapters[..i] == adapters;
    }

    /**
     * check_hwaccel_support: on Windows, when the blacklist applies, the
     * first blacklisted name found in the device disables hardware
     * acceleration; on macOS, a system older than 10.15 disables it;
     * elsewhere nothing happens. It never enables it.
     */
    method CheckHwaccelSupport(build: PluginBuild, atLeast10_15: bool)
      modifies this`hwaccel
      ensures hwaccel ==> old(hwaccel)
      ensures build.windows ==>
        hwaccel == (old(hwaccel) && !(BlacklistApplies(adapterCount, deviceId) && Blacklisted(deviceId)))
      ensures !build.windows && build.apple ==> hwaccel == (old(hwaccel) && atLeast10_15)
      ensures !build.windows && !build.apple ==> hwaccel == old(hwaccel)
    {
      if build.windows {
        if BlacklistApplies(adapterCount, deviceId) {
          var k := 0;
          while k < |Blacklist|
            invariant 0 <= k <= |Blacklist| && hwaccel == old(hwaccel)
            invariant forall j :: 0 <= j < k ==> !ContainsIgnoringCase(deviceId, Blacklist[j])
          {
            if ContainsIgnoringCase(deviceId, Blacklist[k]) {
              hwaccel := false;
              return;
            }
            k := k + 1;
          }
        }
      } else if build.apple {
        if !atLeast10_15 {
          hwaccel := false;
        }
      }
    }
  }

  /**
   * The hardware-acceleration part of obs_module_load as written: only a
   * build with shared textures reads the setting; if on, it is checked,
   * but the adapters are never enumerated first, so the check sees no
   * adapter and an empty device. Any other build keeps it off.
   */
  method LoadHwaccelAsWritten(build: PluginBuild, setting: bool, atLeast10_15: bool) returns (p: PluginState)
    ensures fresh(p) && p.adapterCount == 0 && p.deviceId == []
    ensures !build.sharedTexture ==> !p.hwaccel
    ensures build.windows && build.sharedTexture ==> p.hwaccel == setting
    ensures p.hwaccel ==> setting
  {
    p := new PluginState();
    if build.sharedTexture {
      p.hwaccel := setting;
      if p.hwaccel {
        EmptyNeverBlacklisted();
        p.CheckHwaccelSupport(build, atLeast10_15);
      }
    }
  }

  /**
   * The same with the adapters enumerated first on Windows, so a
   * blacklisted default device does disable hardware acceleration.
   */
  method LoadHwaccel(build: PluginBuild, setting: bool, atLeast10_15: bool,
                     factoryOk: bool, adapters: seq<Option<AdapterDesc>>) returns (p: PluginState)
    ensures fresh(p)
    ensures build.windows ==> p.adapterCount == (if factoryOk then CountedAdapters(adapters) else 0)
    ensures build.windows ==> p.deviceId == (if factoryOk && |adapters| > 0 && adapters[0].Some?
                                            then adapters[0].value.description else [])
    ensures build.windows && build.sharedTexture ==>
      p.hwaccel == (setting && !(BlacklistApplies(p.adapterCount, p.deviceId) && Blacklisted(p.deviceId)))
    ensures !build.sharedTexture ==> !p.hwaccel
    ensures p.hwaccel ==> setting
  {
    p := new PluginState();
    if build.windows {
      p.EnumAdapterCount(factoryOk, adapters);
    }
    if build.sharedTexture {
      p.hwaccel := setting;
      if p.hwaccel {
        p.CheckHwaccelSupport(build, atLeast10_15);
      }
    }
  }

  /** The example adapter's name. */
  const Radeon7660 := "AMD Radeon HD 7660"

  /** The example adapter is blacklisted. */
  lemma Radeon7660Blacklisted()
    ensures Blacklisted(Radeon7660)
  {
    assert Radeon7660[4..] == Blacklist[3];
    assert StartsWithIgnoringCase(Radeon7660[4..], Blacklist[3]);
  }

  /** The example adapter is not an Intel one, so the blacklist applies to it even alone. */
  lemma Radeon7660NotIntel()
    ensures !ContainsIgnoringCase(Radeon7660, "Intel")
  {
    forall i | 0 <= i <= |Radeon7660| - 5
      ensures !StartsWithIgnoringCase(Radeon7660[i..], "Intel")
    {
      assert LowerAscii(Radeon7660[i]) != 'i';
      assert Radeon7660[i..][0] == Radeon7660[i];
    }
  }

  /** A sole "AMD Radeon HD 7660" adapter: the load as written keeps hardware acceleration on. */
  method BlacklistedAdapterAsWritten() returns (asWritten: PluginState, corrected: PluginState)
    ensures asWritten.hwaccel && !corrected.hwaccel
  {
    var build := PluginBuild(true, false, true);
    asWritten := LoadHwaccelAsWritten(build, true, true);
    Radeon7660Blacklisted();
    Radeon7660NotIntel();
    corrected := LoadHwaccel(build, true, true, true, [Some(AdapterDesc(0x1002, 0x6840, Radeon7660))]);
  }
}
