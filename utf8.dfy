/**
 * Specification of the UTF-8 <-> UCS-4 codec of deps/wide-string.cpp (the
 * non-Windows branch). A `wchar_t` there is a 32-bit signed integer; here it is
 * kept as its 32-bit pattern (`wchar`), and `WcharValue` reads that pattern as
 * the signed number C compares against. Bytes are `bv8`; the `oc[]` view of a
 * `wchar_t` is its four bytes in little-endian order.
 */
module Utf8 {
  import opened Wrappers

  type byte = bv8
  type wchar = bv32

  /** The marks of a continuation byte (10xxxxxx) and of the lead bytes of 2- to 6-byte sequences. */
  const Nxt: byte := 0x80
  const Seq2: byte := 0xc0
  const Seq3: byte := 0xe0
  const Seq4: byte := 0xf0
  const Seq5: byte := 0xf8
  const Seq6: byte := 0xfc

  /** The byte-order mark U+FEFF. */
  const Bom: wchar := 0xfeff

  /** The two bits of the `flags` argument: UTF8_IGNORE_ERROR and UTF8_SKIP_BOM. */
  datatype Flags = Flags(ignoreError: bool, skipBom: bool)

  const NoFlags := Flags(false, false)

  /** The signed value of a `wchar_t` (two's complement). */
  function WcharValue(w: wchar): int {
    if w < 0x8000_0000 then w as int else w as int - 0x1_0000_0000
  }

  /** wchar_forbidden: a UTF-16 surrogate, U+D800..U+DFFF. */
  predicate WcharForbidden(sym: wchar) {
    0xd800 <= sym <= 0xdfff
  }

  /** utf8_forbidden: lead bytes that RFC 3629 rules out (overlong 0xC0/0xC1, and 0xF5, 0xFF). */
  predicate Utf8Forbidden(octet: byte) {
    octet == 0xc0 || octet == 0xc1 || octet == 0xf5 || octet == 0xff
  }

  // ---------------------------------------------------------------------------
  // Decoding
  // ---------------------------------------------------------------------------

  /**
   * Number of bytes announced by a lead byte; 0 when the byte cannot start a
   * sequence. The decoder tests the top bits with masks (0x80, 0xE0, 0xF0,
   * 0xF8, 0xFC, 0xFE); each test selects one range of byte values.
   */
  function SequenceLength(lead: byte): nat {
    if lead < 0x80 then 1
    else if lead < 0xc0 then 0
    else if lead < 0xe0 then 2
    else if lead < 0xf0 then 3
    else if lead < 0xf8 then 4
    else if lead < 0xfc then 5
    else if lead < 0xfe then 6
    else 0
  }

  /** The payload bits of a lead byte (`high` in the decoder). */
  function HighBits(lead: byte): wchar {
    if lead & 0x80 == 0 then lead as wchar
    else if lead & 0xe0 == 0xc0 then (lead & 0x1f) as wchar
    else if lead & 0xf0 == 0xe0 then (lead & 0x0f) as wchar
    else if lead & 0xf8 == 0xf0 then (lead & 0x07) as wchar
    else if lead & 0xfc == 0xf8 then (lead & 0x03) as wchar
    else (lead & 0x01) as wchar
  }

  /** Bytes 1..n-1 of `s` exist and all have the form 10xxxxxx. */
  predicate ContinuationsOk(s: seq<byte>, n: nat) {
    n <= |s| && forall i :: 1 <= i < n ==> s[i] & 0xc0 == 0x80
  }

  /**
   * `x` shifted left by `n_bits` in iteration `i` of the decoder's value loop,
   * that is by 6 * (i - 1) bits.
   */
  function Shl(x: wchar, i: nat): wchar
    requires 1 <= i <= 6
  {
    if i == 1 then x else if i == 2 then x << 6 else if i == 3 then x << 12
    else if i == 4 then x << 18 else if i == 5 then x << 24 else x << 30
  }

  /**
   * The decoder's value loop from iteration `i` on: continuation bytes are taken
   * from the last one backwards, the byte of iteration `i` shifted by
   * 6 * (i - 1) bits; the lead byte's payload goes on top.
   */
  function Gather(s: seq<byte>, n: nat, i: nat, acc: wchar): wchar
    requires 1 <= i <= n <= |s| && n <= 6
    decreases n - i
  {
    if i == n then acc | Shl(HighBits(s[0]), i)
    else Gather(s, n, i + 1, acc | Shl((s[n - i] & 0x3f) as wchar, i))
  }

  /** The code point held by the `n`-byte sequence at the start of `s`. */
  function Assemble(s: seq<byte>, n: nat): wchar
    requires 1 <= n <= |s| && n <= 6
  {
    Gather(s[..n], n, 1, 0)
  }

  /**
   * The sequence of code points the decoder assembles from `s` (the bytes from
   * the read position on), stopping at a NUL byte or at the end of `s`; None
   * when the input is rejected. With `ignoreError`, a bad byte is stepped over.
   * Surrogates and byte-order marks are still listed here: whether they are
   * kept is decided when they are stored (see `Store`).
   */
  function Candidates(s: seq<byte>, flags: Flags): Option<seq<wchar>>
    decreases |s|
  {
    if |s| == 0 || s[0] == 0 then Some([])
    else if Utf8Forbidden(s[0]) && !flags.ignoreError then None
    else
      var n := SequenceLength(s[0]);
      if n == 0 || !ContinuationsOk(s, n) then
        if flags.ignoreError then Candidates(s[1..], flags) else None
      else
        Prefixed([Assemble(s, n)], Candidates(s[n..], flags))
  }

  /** Whether the decoder drops a code point it has assembled. */
  predicate Dropped(w: wchar, flags: Flags) {
    WcharForbidden(w) || (w == Bom && flags.skipBom)
  }

  /**
   * Storing assembled code points `c` into an output buffer of `outsize`
   * characters, `k` of them already used: each one needs a free cell before it
   * is written; a surrogate then aborts (or, when ignored, is taken back), a
   * byte-order mark is taken back under `skipBom`. The stored characters, or
   * None when the decoder returns 0.
   */
  function Store(c: seq<wchar>, flags: Flags, outsize: nat, k: nat): Option<seq<wchar>>
    decreases |c|
  {
    if |c| == 0 then Some([])
    else if k >= outsize then None
    else if WcharForbidden(c[0]) then
      if flags.ignoreError then Store(c[1..], flags, outsize, k) else None
    else if c[0] == Bom && flags.skipBom then Store(c[1..], flags, outsize, k)
    else Prefixed([c[0]], Store(c[1..], flags, outsize, k + 1))
  }

  /** The code points of `c` that the decoder keeps. */
  function Kept(c: seq<wchar>, flags: Flags): seq<wchar>
    decreases |c|
  {
    if |c| == 0 then []
    else if Dropped(c[0], flags) then Kept(c[1..], flags)
    else [c[0]] + Kept(c[1..], flags)
  }

  /**
   * The value utf8_to_wchar returns for the bytes `s` from the start of the
   * input: the number of candidates in count-only mode, the number stored in
   * write mode, 0 on any error.
   */
  function DecodeResult(s: seq<byte>, flags: Flags, write: bool, outsize: nat): nat {
    Outcome(Candidates(s, flags), flags, write, outsize)
  }

  /** The value utf8_to_wchar returns once its input has given the candidates `c` (None: rejected). */
  function Outcome(c: Option<seq<wchar>>, flags: Flags, write: bool, outsize: nat): nat {
    match c
    case None => 0
    case Some(c) =>
      if !write then |c|
      else match Store(c, flags, outsize, 0)
        case None => 0
        case Some(x) => |x|
  }

  // ---------------------------------------------------------------------------
  // Encoding
  // ---------------------------------------------------------------------------

  /** Number of bytes the encoder uses for a non-negative code point. */
  function Width(w: wchar): (n: nat)
    requires WcharValue(w) >= 0
    ensures 1 <= n <= 6
  {
    var v := WcharValue(w);
    if v <= 0x7f then 1
    else if v <= 0x7ff then 2
    else if v <= 0xffff then 3
    else if v <= 0x1f_ffff then 4
    else if v <= 0x3ff_ffff then 5
    else 6
  }

  /**
   * The value bits a sequence of `n` bytes carries: 7 in a single byte;
   * otherwise 7 - n in the lead byte (after its n ones and a zero) and 6 in
   * each of the n - 1 continuation bytes.
   */
  function PayloadBits(n: nat): nat
    requires 1 <= n <= 6
  {
    if n == 1 then 7 else (7 - n) + 6 * (n - 1)
  }

  function Pow2(k: nat): nat {
    if k == 0 then 1 else 2 * Pow2(k - 1)
  }

  /** `n` is the shortest width whose payload bits hold the value `v`. */
  predicate ShortestWidth(v: int, n: nat) {
    1 <= n <= 6 && v < Pow2(PayloadBits(n)) && (n > 1 ==> v >= Pow2(PayloadBits(n - 1)))
  }

  /** Byte `k` of the little-endian representation of `ch` (`oc[k]`). */
  function Oc(ch: wchar, k: nat): byte
    requires k < 4
  {
    if k == 0 then (ch & 0xff) as byte
    else if k == 1 then ((ch >> 8) & 0xff) as byte
    else if k == 2 then ((ch >> 16) & 0xff) as byte
    else ((ch >> 24) & 0xff) as byte
  }

  /** The `n` bytes the encoder writes for `ch`, built from `oc[]` as the encoder's switch does. */
  function EncodeSymbol(ch: wchar, n: nat): (b: seq<byte>)
    requires 1 <= n <= 6
    ensures |b| == n
  {
    var oc0, oc1, oc2, oc3 := Oc(ch, 0), Oc(ch, 1), Oc(ch, 2), Oc(ch, 3);
    if n == 1 then [oc0]
    else if n == 2 then
      [Seq2 | (oc0 >> 6) | ((oc1 & 0x07) << 2), Nxt | (oc0 & 0x3f)]
    else if n == 3 then
      [Seq3 | ((oc1 & 0xf0) >> 4), Nxt | (oc0 >> 6) | ((oc1 & 0x0f) << 2), Nxt | (oc0 & 0x3f)]
    else if n == 4 then
      [Seq4 | ((oc2 & 0x1f) >> 2), Nxt | ((oc1 & 0xf0) >> 4) | ((oc2 & 0x03) << 4),
       Nxt | (oc0 >> 6) | ((oc1 & 0x0f) << 2), Nxt | (oc0 & 0x3f)]
    else if n == 5 then
      [Seq5 | (oc3 & 0x03), Nxt | (oc2 >> 2), Nxt | ((oc1 & 0xf0) >> 4) | ((oc2 & 0x03) << 4),
       Nxt | (oc0 >> 6) | ((oc1 & 0x0f) << 2), Nxt | (oc0 & 0x3f)]
    else
      [Seq6 | ((oc3 & 0x40) >> 6), Nxt | (oc3 & 0x3f), Nxt | (oc2 >> 2),
       Nxt | (oc1 >> 4) | ((oc2 & 0x03) << 4), Nxt | (oc0 >> 6) | ((oc1 & 0x0f) << 2),
       Nxt | (oc0 & 0x3f)]
  }

  /**
   * The bytes wchar_to_utf8 produces for the characters `ws` (from the read
   * position on), stopping at a 0 character or at the end of `ws`; None when
   * the input is rejected. Surrogates and negative values are errors, or are
   * skipped with `ignoreError`; a byte-order mark is skipped under `skipBom`.
   */
  function Encode(ws: seq<wchar>, flags: Flags): Option<seq<byte>>
    decreases |ws|
  {
    if |ws| == 0 || ws[0] == 0 then Some([])
    else if WcharForbidden(ws[0]) then
      if flags.ignoreError then Encode(ws[1..], flags) else None
    else if ws[0] == Bom && flags.skipBom then Encode(ws[1..], flags)
    else if WcharValue(ws[0]) < 0 then
      if flags.ignoreError then Encode(ws[1..], flags) else None
    else Prefixed(EncodeSymbol(ws[0], Width(ws[0])), Encode(ws[1..], flags))
  }

  /**
   * The value wchar_to_utf8 returns: the encoded length in count-only mode; in
   * write mode the same length when it fits in `outsize` bytes, else 0.
   */
  function EncodeResult(ws: seq<wchar>, flags: Flags, write: bool, outsize: nat): nat {
    Sized(Encode(ws, flags), write, outsize)
  }

  /** The value wchar_to_utf8 returns once its input has given the bytes `e` (None: rejected). */
  function Sized(e: Option<seq<byte>>, write: bool, outsize: nat): nat {
    match e
    case None => 0
    case Some(b) => if !write || |b| <= outsize then |b| else 0
  }
}
