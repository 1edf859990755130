/**
 * The values BrowserInit derives before starting the engine (the packed OBS
 * version, the product string and the accept-language list), the frame-rate
 * choice of the create task, and the single-browser service of
 * obs_browser_server.cc, which keeps one session in its own fields.
 */
module EngineInit {
  import opened Wrappers
  import opened Rpc
  import opened BrowserClients

  /** The three fields of a packed OBS version, each a uint32_t. */
  datatype ObsVersion = ObsVersion(major: bv32, minor: bv32, patch: bv32)

  /** Unpack a version: major from bits 24-31, minor from bits 16-23, patch from bits 0-15. */
  function DecodeVersion(v: bv32): (r: ObsVersion)
    ensures r.major < 0x100 && r.minor < 0x100 && r.patch < 0x1_0000
  {
    ObsVersion(v >> 24, (v >> 16) & 0xFF, v & 0xFFFF)
  }

  /** Pack a version: `(major << 24) | (minor << 16) | patch`. */
  function EncodeVersion(o: ObsVersion): bv32 {
    (o.major << 24) | (o.minor << 16) | o.patch
  }

  /** Packing the unpacked fields gives back the version. */
  lemma VersionRoundTrip(v: bv32)
    ensures EncodeVersion(DecodeVersion(v)) == v
  {
  }

  /** Unpacking a packed version gives back its fields, when each fits its bits. */
  lemma VersionFieldsRoundTrip(o: ObsVersion)
    requires o.major < 0x100 && o.minor < 0x100 && o.patch < 0x1_0000
    ensures DecodeVersion(EncodeVersion(o)) == o
  {
  }

  predicate IsDigit(c: char) {
    '0' <= c <= '9'
  }

  /** std::to_string of a non-negative number: its decimal digits, most significant first. */
  function DecimalString(n: nat): (s: string)
    ensures |s| > 0 && forall i :: 0 <= i < |s| ==> IsDigit(s[i])
  {
    if n < 10 then [('0' as int + n) as char]
    else DecimalString(n / 10) + [('0' as int + n % 10) as char]
  }

  /** The number a string of decimal digits denotes. */
  function DecimalValue(s: string): nat
    requires forall i :: 0 <= i < |s| ==> IsDigit(s[i])
  {
    if |s| == 0 then 0
    else
      assert IsDigit(s[|s| - 1]);
      10 * DecimalValue(s[..|s| - 1]) + (s[|s| - 1] as int - '0' as int)
  }

  /** Reading the digits back gives the number. */
  lemma {:induction false} DecimalRoundTrip(n: nat)
    ensures DecimalValue(DecimalString(n)) == n
  {
    if n >= 10 {
      var s := DecimalString(n);
      assert s[..|s| - 1] == DecimalString(n / 10);
      DecimalRoundTrip(n / 10);
    }
  }

  /** The length of the run of digits `s` starts with. */
  function DigitRun(s: string): (n: nat)
    ensures n <= |s|
  {
    if |s| == 0 || !IsDigit(s[0]) then 0 else 1 + DigitRun(s[1..])
  }

  /** What may follow a number: nothing, or something that is not a digit. */
  predicate Delimited(r: string) {
    |r| == 0 || !IsDigit(r[0])
  }

  lemma {:induction false} DigitRunOf(x: string, r: string)
    requires forall i :: 0 <= i < |x| ==> IsDigit(x[i])
    requires Delimited(r)
    ensures DigitRun(x + r) == |x|
  {
    if |x| > 0 {
      assert (x + r)[1..] == x[1..] + r;
      DigitRunOf(x[1..], r);
    }
  }

  /** A number followed by a delimiter can be read off the front of a string, digits first. */
  lemma PeelNumber(a: nat, b: nat, r1: string, r2: string)
    requires Delimited(r1) && Delimited(r2)
    requires DecimalString(a) + r1 == DecimalString(b) + r2
    ensures a == b && r1 == r2
  {
    var x, y := DecimalString(a), DecimalString(b);
    DigitRunOf(x, r1);
    DigitRunOf(y, r2);
    assert x == (x + r1)[..|x|] && y == (y + r2)[..|y|];
    assert r1 == (x + r1)[|x|..] && r2 == (y + r2)[|y|..];
    DecimalRoundTrip(a);
    DecimalRoundTrip(b);
  }

  /** Numbers written in decimal and joined by dots, as the stream builds them. */
  function Dotted(ns: seq<nat>): string
    requires |ns| > 0
  {
    if |ns| == 1 then DecimalString(ns[0]) else DecimalString(ns[0]) + "." + Dotted(ns[1..])
  }

  /** A dotted list of two or more numbers is its first number, a dot, and the rest. */
  lemma DottedCons(ns: seq<nat>, t: string)
    requires |ns| > 1
    ensures Dotted(ns) + t == DecimalString(ns[0]) + ("." + (Dotted(ns[1..]) + t))
  {
  }

  /** Equally long dotted lists followed by delimiters are equal, and so are the delimiters' strings. */
  lemma {:induction false} DottedInjective(ns1: seq<nat>, ns2: seq<nat>, t1: string, t2: string)
    requires |ns1| == |ns2| > 0
    requires Delimited(t1) && Delimited(t2)
    requires Dotted(ns1) + t1 == Dotted(ns2) + t2
    ensures ns1 == ns2 && t1 == t2
  {
    if |ns1| == 1 {
      PeelNumber(ns1[0], ns2[0], t1, t2);
    } else {
      var u1, u2 := Dotted(ns1[1..]) + t1, Dotted(ns2[1..]) + t2;
      DottedCons(ns1, t1);
      DottedCons(ns2, t2);
      PeelNumber(ns1[0], ns2[0], "." + u1, "." + u2);
      assert u1 == ("." + u1)[1..] && u2 == ("." + u2)[1..];
      DottedInjective(ns1[1..], ns2[1..], t1, t2);
      assert ns1 == [ns1[0]] + ns1[1..] && ns2 == [ns2[0]] + ns2[1..];
    }
  }

  /** The engine's version numbers (CHROME_VERSION_MAJOR, _MINOR, _BUILD, _PATCH). */
  datatype ChromeVersion = ChromeVersion(major: nat, minor: nat, build: nat, patch: nat)

  function ChromeFields(c: ChromeVersion): seq<nat> {
    [c.major, c.minor, c.build, c.patch]
  }

  function ObsFields(o: ObsVersion): seq<nat> {
    [o.major as nat, o.minor as nat, o.patch as nat]
  }

  /** `Chrome/<M>.<m>.<b>.<p> OBS/<major>.<minor>.<patch>`: what lets a server tell OBS's browsers apart. */
  function ProductVersion(chrome: ChromeVersion, obs: ObsVersion): string {
    "Chrome/" + (Dotted(ChromeFields(chrome)) + (" OBS/" + Dotted(ObsFields(obs))))
  }

  /** The product string determines both versions: no two version pairs give the same string. */
  lemma ProductVersionInjective(c1: ChromeVersion, o1: ObsVersion, c2: ChromeVersion, o2: ObsVersion)
    requires ProductVersion(c1, o1) == ProductVersion(c2, o2)
    ensures c1 == c2 && o1 == o2
  {
    var t1, t2 := " OBS/" + Dotted(ObsFields(o1)), " OBS/" + Dotted(ObsFields(o2));
    var u1, u2 := Dotted(ChromeFields(c1)) + t1, Dotted(ChromeFields(c2)) + t2;
    assert u1 == ("Chrome/" + u1)[7..] && u2 == ("Chrome/" + u2)[7..];
    DottedInjective(ChromeFields(c1), ChromeFields(c2), t1, t2);
    var v1, v2 := Dotted(ObsFields(o1)), Dotted(ObsFields(o2));
    assert v1 + [] == t1[5..] && v2 + [] == t2[5..];
    DottedInjective(ObsFields(o1), ObsFields(o2), [], []);
    assert ChromeFields(c1)[0] == c1.major && ObsFields(o1)[0] == o1.major as nat;
    Uint32Injective(o1.major, o2.major);
    Uint32Injective(o1.minor, o2.minor);
    Uint32Injective(o1.patch, o2.patch);
  }

  /** Two uint32 values with the same number are the same value. */
  lemma Uint32Injective(a: bv32, b: bv32)
    requires a as nat == b as nat
    ensures a == b
  {
    assert (a as nat) as bv32 == a;
  }

  /** The accept-language list: the locale first unless it is en-US, then en-US and en. */
  function AcceptLanguage(locale: string): string {
    if locale != "en-US" then locale + "," + "en-US,en" else "en-US,en"
  }

  /** The first entry of a comma-separated list. */
  function FirstEntry(s: string): string {
    if |s| == 0 || s[0] == ',' then [] else [s[0]] + FirstEntry(s[1..])
  }

  /** FirstEntry stops at the first comma after a comma-free prefix. */
  lemma {:induction false} FirstEntryOf(x: string, rest: string)
    requires ',' !in x
    ensures FirstEntry(x + "," + rest) == x
  {
    if |x| > 0 {
      assert (x + "," + rest)[1..] == x[1..] + "," + rest;
      FirstEntryOf(x[1..], rest);
    } else {
      assert (x + "," + rest)[0] == ',';
    }
  }

  /**
   * A locale without a comma leads the list it produces, and the list always
   * ends with the en-US, en fallback; en-US is not listed twice.
   */
  lemma AcceptLanguageShape(locale: string)
    requires ',' !in locale && |locale| > 0
    ensures FirstEntry(AcceptLanguage(locale)) == locale
    ensures AcceptLanguage(locale)[|AcceptLanguage(locale)| - 8..] == "en-US,en"
    ensures AcceptLanguage(locale) == "en-US,en" <==> locale == "en-US"
  {
    if locale != "en-US" {
      FirstEntryOf(locale, "en-US,en");
      assert |AcceptLanguage(locale)| == |locale| + 9 > |"en-US,en"|;
    } else {
      FirstEntryOf("en-US", "en");
      assert "en-US" + "," + "en" == "en-US,en";
    }
  }

  /** The compile-time switches the frame-rate choice depends on. */
  datatype BuildFlags = BuildFlags(sharedTexture: bool, externalBeginFrame: bool)

  /** What the create task hands the engine: whether frames are requested from outside, and the timer rate. */
  datatype FrameSettings = FrameSettings(externalBeginFrame: bool, windowlessFrameRate: int)

  /** A C++ double-to-int conversion: truncation toward zero. */
  function Truncate(x: real): (r: int)
    ensures 0.0 <= x ==> r as real <= x < r as real + 1.0
    ensures x < 0.0 ==> r as real - 1.0 < x <= r as real
  {
    if x >= 0.0 then x.Floor else -((-x).Floor)
  }

  /**
   * The frame-rate choice: with shared textures and external begin-frame
   * support, a source without a custom rate is driven by begin-frame requests
   * and its timer is off (rate 0), and a custom rate is used as is; with
   * shared textures only, the custom rate or else the canvas rate (truncated);
   * without shared textures, the requested rate.
   */
  function FrameRate(flags: BuildFlags, fpsCustom: bool, fps: nat, canvasFps: real): (r: FrameSettings)
    ensures r.externalBeginFrame <==> flags.sharedTexture && flags.externalBeginFrame && !fpsCustom
  {
    if flags.sharedTexture && flags.externalBeginFrame then
      if !fpsCustom then FrameSettings(true, 0) else FrameSettings(false, fps)
    else if flags.sharedTexture then
      FrameSettings(false, if fpsCustom then fps else Truncate(canvasFps))
    else
      FrameSettings(false, fps)
  }

  /**
   * Exactly one clock drives painting: the timer is off when begin frames
   * come from outside, and runs (at the custom rate, or else at the whole
   * part of the canvas rate) otherwise, given positive rates.
   */
  lemma OneClock(flags: BuildFlags, fpsCustom: bool, fps: nat, canvasFps: real)
    requires fps >= 1 && canvasFps >= 1.0
    ensures FrameRate(flags, fpsCustom, fps, canvasFps).externalBeginFrame <==>
      FrameRate(flags, fpsCustom, fps, canvasFps).windowlessFrameRate == 0
    ensures fpsCustom ==> FrameRate(flags, fpsCustom, fps, canvasFps).windowlessFrameRate == fps
    ensures !fpsCustom && !flags.externalBeginFrame && flags.sharedTexture ==>
      FrameRate(flags, fpsCustom, fps, canvasFps).windowlessFrameRate as real <= canvasFps
        < FrameRate(flags, fpsCustom, fps, canvasFps).windowlessFrameRate as real + 1.0
  {
  }

  /** The build obs_browser_server.cc is written for: shared textures and external begin frames. */
  const SingleServiceFlags := BuildFlags(true, true)

  /** The fields of a CreateRequest the single-browser service keeps. */
  datatype CreateRequest = CreateRequest(
    hwaccel: bool, rerouteAudio: bool, width: nat, height: nat,
    fps: nat, fpsCustom: bool, videoFps: nat, url: string)

  /** A browser the engine was asked to create: window size, shared texture, frame settings and URL. */
  datatype Launch = Launch(width: nat, height: nat, sharedTexture: bool, frames: FrameSettings, url: string)

  /** A process message sent to a browser's renderer. */
  datatype Message = VisibilityMessage(browser: Browser, visible: bool) | ActiveMessage(browser: Browser, active: bool)

  /** The browser the create task asks for, from the request fields as they are when it runs. */
  function LaunchOf(req: CreateRequest): Launch {
    Launch(req.width, req.height, req.hwaccel, FrameRate(SingleServiceFlags, req.fpsCustom, req.fps, 0.0), req.url)
  }

  /**
   * BrowserServerServiceImpl of obs_browser_server.cc: one session, whose
   * request fields (hwaccel, reroute_audio, width, height, fps, fps_custom,
   * video_fps, url) live in the service itself, here as one record. The
   * create handler copies them and posts a task that reads them when it runs.
   */
  class SingleBrowserService {
    var request: CreateRequest
    var browserClient: BrowserClient?
    /** The global `cefBrowser`. */
    var cefBrowser: Option<Browser>
    /** The create tasks posted to the engine and not run yet. */
    var pendingCreates: nat
    var launches: seq<Launch>
    var hostCalls: seq<HostCall>
    var messages: seq<Message>

    constructor()
      ensures browserClient == null && cefBrowser == None && pendingCreates == 0
      ensures launches == [] && hostCalls == [] && messages == []
    {
      browserClient := null;
      cefBrowser := None;
      pendingCreates := 0;
      launches, hostCalls, messages := [], [], [];
    }

    /** CreateBrowserSource: the request overwrites the fields and a create task is posted. */
    method CreateBrowserSource(req: CreateRequest)
      modifies this
      ensures request == req && pendingCreates == old(pendingCreates) + 1
      ensures browserClient == old(browserClient) && cefBrowser == old(cefBrowser)
      ensures launches == old(launches) && hostCalls == old(hostCalls) && messages == old(messages)
    {
      request := req;
      pendingCreates := pendingCreates + 1;
    }

    /**
     * The create task, run on the engine's thread with the fields as they
     * are then: a new client, a browser launched with the frame-rate choice
     * (None when creation fails), then, for a browser, audio muted when
     * rerouted and the Visibility and Active messages, both true.
     */
    method RunCreateTask(created: Option<Browser>)
      requires pendingCreates > 0
      modifies this
      ensures pendingCreates == old(pendingCreates) - 1 && request == old(request)
      ensures browserClient != null && fresh(browserClient) && browserClient.Valid()
      ensures browserClient.sharingAvailable == request.hwaccel && browserClient.rerouteAudio == request.rerouteAudio
      ensures launches == old(launches) + [LaunchOf(request)]
      ensures cefBrowser == created
      ensures created.None? ==> hostCalls == old(hostCalls) && messages == old(messages)
      ensures created.Some? ==>
        && hostCalls == old(hostCalls) + (if request.rerouteAudio then [SetAudioMuted(created.value, true)] else [])
        && messages == old(messages) + [VisibilityMessage(created.value, true), ActiveMessage(created.value, true)]
    {
      browserClient := new BrowserClient(request.hwaccel, request.rerouteAudio);
      launches := launches + [LaunchOf(request)];
      cefBrowser := created;
      pendingCreates := pendingCreates - 1;
      if created.None? {
        return;
      }
      if request.rerouteAudio {
        hostCalls := hostCalls + [SetAudioMuted(created.value, true)];
      }
      messages := messages + [VisibilityMessage(created.value, true), ActiveMessage(created.value, true)];
    }
  }

  /**
   * A later create replaces an earlier one: when two creates are handled
   * before their tasks run, both tasks launch the second request's browser,
   * and the global browser is the last one created.
   */
  method TwoCreates(first: CreateRequest, second: CreateRequest, b1: Browser, b2: Browser)
    returns (s: SingleBrowserService)
    ensures s.launches == [LaunchOf(second), LaunchOf(second)]
    ensures s.cefBrowser == Some(b2)
  {
    s := new SingleBrowserService();
    s.CreateBrowserSource(first);
    s.CreateBrowserSource(second);
    s.RunCreateTask(Some(b1));
    s.RunCreateTask(Some(b2));
  }
}
