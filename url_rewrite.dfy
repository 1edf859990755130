/**
 * The URL a browser source loads, as BrowserSource::Update derives it
 * (obs-browser-source.cpp): a local file's path, percent-encoded by the
 * engine, has its encoded separators turned back into `/` and gets the
 * build's scheme prefix; and, where file URLs are enabled, an
 * `http://absolute/` URL is turned into a `file:///` one.
 */
module UrlRewrite {
  import opened Wrappers

  /** The build switches the rewriting depends on: `_WIN32` and ENABLE_LOCAL_FILE_URL_SCHEME. */
  datatype UrlBuild = UrlBuild(windows: bool, fileScheme: bool)

  /** `pat` occurs in `s` at index `i`. */
  predicate OccursAt(s: string, pat: string, i: int) {
    0 <= i && i + |pat| <= |s| && s[i..i + |pat|] == pat
  }

  /** std::string::find from index `from`: the first occurrence of `pat` at or after `from`. */
  function FindFrom(s: string, pat: string, from: nat): (r: Option<nat>)
    ensures r.Some? ==> from <= r.value && OccursAt(s, pat, r.value)
    ensures forall j :: from <= j && (r.None? || j < r.value) ==> !OccursAt(s, pat, j)
    decreases |s| - from
  {
    if from + |pat| > |s| then None
    else if s[from..from + |pat|] == pat then Some(from)
    else FindFrom(s, pat, from + 1)
  }

  /** std::string::find: the first occurrence of `pat` in `s`, None for npos. */
  function Find(s: string, pat: string): (r: Option<nat>)
    ensures r.Some? ==> OccursAt(s, pat, r.value) && forall j :: j < r.value ==> !OccursAt(s, pat, j)
    ensures r.None? <==> forall j :: !OccursAt(s, pat, j)
  {
    FindFrom(s, pat, 0)
  }

  /**
   * Every occurrence of `pat` in `s` from index `k` on, from left to right
   * and without overlap, replaced by `/`.
   */
  function ReplaceFrom(s: string, pat: string, k: nat): (r: string)
    requires |pat| > 0 && k <= |s|
    ensures |r| <= |s| - k
    decreases |s| - k
  {
    if k + |pat| > |s| then s[k..]
    else if OccursAt(s, pat, k) then "/" + ReplaceFrom(s, pat, k + |pat|)
    else [s[k]] + ReplaceFrom(s, pat, k + 1)
  }

  /** Every occurrence of `pat` in `s`, from left to right and without overlap, replaced by `/`. */
  function ReplaceAll(s: string, pat: string): string
    requires |pat| > 0
  {
    ReplaceFrom(s, pat, 0)
  }

  /** ReplaceFrom copies a stretch of `s` in which no occurrence of `pat` starts. */
  lemma {:induction false} Skip(s: string, pat: string, k: nat, m: nat)
    requires |pat| > 0 && k <= m <= |s|
    requires forall j :: k <= j < m ==> !OccursAt(s, pat, j)
    ensures ReplaceFrom(s, pat, k) == s[k..m] + ReplaceFrom(s, pat, m)
    decreases m - k
  {
    if k < m && k + |pat| <= |s| {
      Skip(s, pat, k + 1, m);
      assert s[k..m] == [s[k]] + s[k + 1..m];
    } else if k < m {
      assert s[k..] == s[k..m] + s[m..];
    }
  }

  /** ReplaceFrom depends only on the rest of the string from where it starts. */
  lemma {:induction false} Shift(s: string, a: nat, k: nat, pat: string)
    requires |pat| > 0 && a + k <= |s|
    ensures ReplaceFrom(s, pat, a + k) == ReplaceFrom(s[a..], pat, k)
    decreases |s| - a - k
  {
    if a + k + |pat| > |s| {
      assert s[a + k..] == s[a..][k..];
    } else if OccursAt(s, pat, a + k) {
      var next := k + |pat|;
      Shift(s, a, next, pat);
      ShiftHit(s, a, k, next, pat);
    } else {
      var next := k + 1;
      Shift(s, a, next, pat);
      ShiftMiss(s, a, k, next, pat);
    }
  }

  /** The step of Shift at an occurrence of `pat`. */
  lemma ShiftHit(s: string, a: nat, k: nat, next: nat, pat: string)
    requires |pat| > 0 && next == k + |pat| && a + next <= |s| && OccursAt(s, pat, a + k)
    requires ReplaceFrom(s, pat, a + next) == ReplaceFrom(s[a..], pat, next)
    ensures ReplaceFrom(s, pat, a + k) == ReplaceFrom(s[a..], pat, k)
  {
    var t := s[a..];
    assert s[a + k..a + k + |pat|] == t[k..k + |pat|];
    assert OccursAt(t, pat, k);
    assert ReplaceFrom(s, pat, a + k) == "/" + ReplaceFrom(s, pat, a + next);
    assert ReplaceFrom(t, pat, k) == "/" + ReplaceFrom(t, pat, next);
    Congruence("/", ReplaceFrom(s, pat, a + next), "/", ReplaceFrom(t, pat, next));
  }

  /** The step of Shift where `pat` does not occur. */
  lemma ShiftMiss(s: string, a: nat, k: nat, next: nat, pat: string)
    requires |pat| > 0 && next == k + 1 && a + k + |pat| <= |s| && !OccursAt(s, pat, a + k)
    requires ReplaceFrom(s, pat, a + next) == ReplaceFrom(s[a..], pat, next)
    ensures ReplaceFrom(s, pat, a + k) == ReplaceFrom(s[a..], pat, k)
  {
    var t := s[a..];
    assert s[a + k..a + k + |pat|] == t[k..k + |pat|];
    assert !OccursAt(t, pat, k);
    assert s[a + k] == t[k];
    assert ReplaceFrom(s, pat, a + k) == [s[a + k]] + ReplaceFrom(s, pat, a + next);
    assert ReplaceFrom(t, pat, k) == [t[k]] + ReplaceFrom(t, pat, next);
    Congruence([s[a + k]], ReplaceFrom(s, pat, a + next), [t[k]], ReplaceFrom(t, pat, next));
  }

  /** Two strings with the same rest give the same ReplaceFrom from there. */
  lemma SameRest(s: string, a: nat, t: string, b: nat, pat: string)
    requires |pat| > 0 && a <= |s| && b <= |t| && s[a..] == t[b..]
    ensures ReplaceFrom(s, pat, a) == ReplaceFrom(t, pat, b)
  {
    Shift(s, a, 0, pat);
    Shift(t, b, 0, pat);
  }

  /** Without an occurrence of `pat`, ReplaceAll changes nothing. */
  lemma ReplaceAllNone(s: string, pat: string)
    requires |pat| > 0 && forall j :: !OccursAt(s, pat, j)
    ensures ReplaceAll(s, pat) == s
  {
    Skip(s, pat, 0, |s|);
  }

  /** Up to the first occurrence of `pat`, ReplaceAll copies `s`; there it writes `/` and goes on after the occurrence. */
  lemma FirstSplit(s: string, pat: string, i: nat)
    requires |pat| > 0 && Find(s, pat) == Some(i)
    ensures ReplaceAll(s, pat) == s[..i] + "/" + ReplaceFrom(s, pat, i + |pat|)
  {
    Skip(s, pat, 0, i);
  }

  /** The string after one step of the loop: the occurrence of `pat` at `i` replaced by `/`. */
  function ReplaceAt(s: string, i: nat, n: nat): (r: string)
    requires i + n <= |s|
    ensures |r| == |s| - n + 1 && r[i] == '/'
    ensures r[..i] == s[..i] && r[i + 1..] == s[i + n..]
  {
    s[..i] + "/" + s[i + n..]
  }

  /**
   * One step of the loop keeps what ReplaceAll makes of the string: no
   * occurrence of `pat` can start in the copied prefix or at the new `/`,
   * because `pat` holds no `/`.
   */
  lemma ReplaceStep(s: string, pat: string, i: nat)
    requires |pat| > 0 && '/' !in pat && Find(s, pat) == Some(i)
    ensures ReplaceAll(ReplaceAt(s, i, |pat|), pat) == ReplaceAll(s, pat)
  {
    var s' := ReplaceAt(s, i, |pat|);
    forall j | 0 <= j < i + 1 ensures !OccursAt(s', pat, j) {
      NotAcross(s, pat, i, j);
    }
    Skip(s', pat, 0, i + 1);
    SameRest(s', i + 1, s, i + |pat|, pat);
    FirstSplit(s, pat, i);
    Congruence(s'[0..i + 1], ReplaceFrom(s', pat, i + 1), s[..i] + "/", ReplaceFrom(s, pat, i + |pat|));
  }

  /** Equal parts make equal concatenations. */
  lemma Congruence(a: string, b: string, c: string, d: string)
    requires a == c && b == d
    ensures a + b == c + d
  {
  }

  /** No occurrence of `pat` starts before the new `/` of one loop step. */
  lemma NotAcross(s: string, pat: string, i: nat, j: nat)
    requires |pat| > 0 && '/' !in pat && Find(s, pat) == Some(i) && j <= i
    ensures !OccursAt(ReplaceAt(s, i, |pat|), pat, j)
  {
    var s' := ReplaceAt(s, i, |pat|);
    if j + |pat| <= i {
      assert s'[j..j + |pat|] == s'[..i][j..j + |pat|] == s[..i][j..j + |pat|] == s[j..j + |pat|];
      assert !OccursAt(s, pat, j);
    } else if j + |pat| <= |s'| {
      assert s'[j..j + |pat|][i - j] == '/';
    }
  }

  /** One loop step cannot create an occurrence of a pattern `q` that holds no `/`. */
  lemma StepKeepsOut(s: string, i: nat, n: nat, q: string, j: int)
    requires i + n <= |s| && '/' !in q && forall k :: !OccursAt(s, q, k)
    ensures !OccursAt(ReplaceAt(s, i, n), q, j)
  {
    var s' := ReplaceAt(s, i, n);
    if 0 <= j && j + |q| <= i {
      assert s'[j..j + |q|] == s'[..i][j..j + |q|] == s[..i][j..j + |q|] == s[j..j + |q|];
      assert !OccursAt(s, q, j);
    } else if i < j && j + |q| <= |s'| {
      var d := j - i - 1;
      assert s'[j..j + |q|] == s'[i + 1..][d..d + |q|] == s[i + n..][d..d + |q|] == s[j - 1 + n..j - 1 + n + |q|];
      assert !OccursAt(s, q, j - 1 + n);
    } else if 0 <= j <= i < j + |q| <= |s'| {
      assert s'[j..j + |q|][i - j] == '/';
    }
  }

  /**
   * `while (s.find(pat) != npos) s.replace(s.find(pat), 3, "/")`: the
   * first occurrence is replaced until none is left. A pattern `other`
   * without `/` that `s` does not hold does not appear either.
   */
  method ReplaceEach(s: string, pat: string, ghost other: string) returns (r: string)
    requires |pat| == 3 && '/' !in pat && '/' !in other
    ensures r == ReplaceAll(s, pat)
    ensures forall j :: !OccursAt(r, pat, j)
    ensures (forall j :: !OccursAt(s, other, j)) ==> forall j :: !OccursAt(r, other, j)
  {
    r := s;
    while Find(r, pat).Some?
      invariant ReplaceAll(r, pat) == ReplaceAll(s, pat)
      invariant (forall j :: !OccursAt(s, other, j)) ==> forall j :: !OccursAt(r, other, j)
      decreases |r|
    {
      var i := Find(r, pat).value;
      ReplaceStep(r, pat, i);
      if forall j :: !OccursAt(s, other, j) {
        forall j ensures !OccursAt(ReplaceAt(r, i, 3), other, j) {
          StepKeepsOut(r, i, 3, other, j);
        }
      }
      r := ReplaceAt(r, i, 3);
    }
    ReplaceAllNone(r, pat);
  }

  /** On Windows, a `%3A` before the first `%2F` (a drive colon) becomes `:`. */
  function DriveColon(s: string, build: UrlBuild): (r: string)
    ensures !build.windows ==> r == s
    ensures r != s ==>
      Find(s, "%3A").Some? && Find(s, "%2F").Some? && Find(s, "%3A").value < Find(s, "%2F").value
  {
    var slash := Find(s, "%2F");
    var colon := Find(s, "%3A");
    if build.windows && slash.Some? && colon.Some? && colon.value < slash.value
    then s[..colon.value] + ":" + s[colon.value + 3..]
    else s
  }

  /** The scheme prefix of a local file's URL in this build. */
  function LocalPrefix(build: UrlBuild): string {
    if !build.fileScheme then "http://absolute/"
    else if build.windows then "file:///"
    else "file://"
  }

  /** The URL of a local file whose path the engine encoded as `encoded`. */
  function LocalFileUrl(encoded: string, build: UrlBuild): string {
    LocalPrefix(build) + ReplaceAll(ReplaceAll(DriveColon(encoded, build), "%5C"), "%2F")
  }

  /**
   * The local-file branch of Update on the encoded path: the drive colon,
   * then the two `while` loops, then the prefix. No encoded separator is
   * left in the path part.
   */
  method LocalFilePath(encoded: string, build: UrlBuild) returns (url: string)
    ensures url == LocalFileUrl(encoded, build)
    ensures |url| >= |LocalPrefix(build)| && url[..|LocalPrefix(build)|] == LocalPrefix(build)
    ensures forall j :: !OccursAt(url[|LocalPrefix(build)|..], "%5C", j)
    ensures forall j :: !OccursAt(url[|LocalPrefix(build)|..], "%2F", j)
  {
    var path := DriveColon(encoded, build);
    path := ReplaceEach(path, "%5C", "%2F");
    path := ReplaceEach(path, "%2F", "%5C");
    url := LocalPrefix(build) + path;
    assert url[|LocalPrefix(build)|..] == path;
  }

  /** tolower in the C locale. */
  function LowerAscii(c: char): (l: char)
    ensures 'A' <= c <= 'Z' ==> l as int == c as int + 32
    ensures !('A' <= c <= 'Z') ==> l == c
  {
    if 'A' <= c <= 'Z' then (c as int + 32) as char else c
  }

  /** astrcmpi_n(s, prefix, |prefix|) == 0: `s` starts with `prefix`, ignoring ASCII case. */
  predicate StartsWithIgnoringCase(s: string, prefix: string) {
    |s| >= |prefix| && forall i :: 0 <= i < |prefix| ==> LowerAscii(s[i]) == LowerAscii(prefix[i])
  }

  /** A URL and whether it names a local file. */
  datatype Resolved = Resolved(url: string, isLocal: bool)

  /**
   * Where file URLs are enabled, a URL starting with `http://absolute/`
   * in any case becomes `file:///` followed by the rest, and is local.
   */
  function RewriteAbsolute(r: Resolved, build: UrlBuild): Resolved {
    if build.fileScheme && StartsWithIgnoringCase(r.url, "http://absolute/")
    then Resolved("file:///" + r.url[16..], true)
    else r
  }

  /**
   * The URL Update settles on for a source whose settings name `raw` (the
   * `local_file` setting when `isLocal`, else `url`); `encoded` is what
   * the engine's URI encoder makes of `raw`.
   */
  function ResolveUrl(isLocal: bool, raw: string, encoded: string, build: UrlBuild): Resolved {
    var url := if isLocal && raw != [] then LocalFileUrl(encoded, build) else raw;
    RewriteAbsolute(Resolved(url, isLocal), build)
  }

  /** The rewrite of `http://absolute/` URLs: its effect, and that a second pass changes nothing. */
  lemma RewriteAbsoluteShape(r: Resolved, build: UrlBuild)
    ensures build.fileScheme && StartsWithIgnoringCase(r.url, "http://absolute/") ==>
      RewriteAbsolute(r, build) == Resolved("file:///" + r.url[16..], true)
    ensures !build.fileScheme ==> RewriteAbsolute(r, build) == r
    ensures RewriteAbsolute(RewriteAbsolute(r, build), build) == RewriteAbsolute(r, build)
  {
    var r' := RewriteAbsolute(r, build);
    if r' != r {
      assert r'.url[0] == 'f';
      assert LowerAscii(r'.url[0]) != LowerAscii("http://absolute/"[0]);
    }
  }

  /**
   * A local file's URL keeps its scheme: with file URLs enabled it starts
   * with `file://` and the `http://absolute/` rewrite leaves it alone;
   * without them it starts with `http://absolute/`.
   */
  lemma LocalFileScheme(raw: string, encoded: string, build: UrlBuild)
    requires raw != []
    ensures var r := ResolveUrl(true, raw, encoded, build);
      r.isLocal && r.url == LocalFileUrl(encoded, build)
      && (build.fileScheme ==> r.url[..7] == "file://")
      && (!build.fileScheme ==> r.url[..16] == "http://absolute/")
  {
    var url := LocalFileUrl(encoded, build);
    assert url[..|LocalPrefix(build)|] == LocalPrefix(build);
    if build.fileScheme {
      assert url[0] == 'f';
      assert LowerAscii(url[0]) != LowerAscii("http://absolute/"[0]);
    }
  }

  /** A URL that is not local and does not start with `http://absolute/` passes through unchanged. */
  lemma RemoteUrlUnchanged(raw: string, encoded: string, build: UrlBuild)
    requires !StartsWithIgnoringCase(raw, "http://absolute/")
    ensures ResolveUrl(false, raw, encoded, build) == Resolved(raw, false)
  {
  }

  /** The URL part of Update, with `uriEncode` standing for CefURIEncode. */
  method ResolveSourceUrl(isLocal: bool, raw: string, uriEncode: string -> string, build: UrlBuild)
    returns (r: Resolved)
    ensures r == ResolveUrl(isLocal, raw, uriEncode(raw), build)
  {
    var url := raw;
    if isLocal && url != [] {
      url := LocalFilePath(uriEncode(url), build);
    }
    r := Resolved(url, isLocal);
    if build.fileScheme && |url| >= 16 && StartsWithIgnoringCase(url, "http://absolute/") {
      r := Resolved("file:///" + url[16..], true);
    }
  }
}
