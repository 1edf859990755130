/**
 * wchar_to_utf8 of deps/wide-string.cpp (non-Windows branch): the loop over
 * the wide characters, which counts the bytes of each character and, given an
 * output buffer, writes them through the `oc[]` byte view of the character.
 */
module Encoder {
  import opened Wrappers
  import opened Utf8
  import WideString
  import Utf8Laws

  /**
   * `Encode` of the characters ws[i..lim], read where they lie: the view of
   * the encoder, which walks its input with a read position.
   */
  function EncodeIn(ws: seq<wchar>, lim: nat, i: nat, flags: Flags): Option<seq<byte>>
    requires i <= lim <= |ws|
    decreases lim - i
  {
    if i == lim || ws[i] == 0 then Some([])
    else if WcharForbidden(ws[i]) then
      if flags.ignoreError then EncodeIn(ws, lim, i + 1, flags) else None
    else if ws[i] == Bom && flags.skipBom then EncodeIn(ws, lim, i + 1, flags)
    else if WcharValue(ws[i]) < 0 then
      if flags.ignoreError then EncodeIn(ws, lim, i + 1, flags) else None
    else Prefixed(EncodeSymbol(ws[i], Width(ws[i])), EncodeIn(ws, lim, i + 1, flags))
  }

  /** Reading in place encodes exactly the slice. */
  lemma {:induction false} EncodeInSlice(ws: seq<wchar>, lim: nat, i: nat, flags: Flags)
    requires i <= lim <= |ws|
    ensures EncodeIn(ws, lim, i, flags) == Encode(ws[i..lim], flags)
    decreases lim - i
  {
    var t := ws[i..lim];
    if i == lim || ws[i] == 0 {
      assert |t| == 0 || t[0] == 0;
    } else {
      assert t[0] == ws[i];
      assert t[1..] == ws[i + 1..lim];
      EncodeInSlice(ws, lim, i + 1, flags);
    }
  }

  /** The characters before `i` have been encoded as `done`. */
  ghost predicate EncodedUpTo(ws: seq<wchar>, lim: nat, i: nat, done: seq<byte>, flags: Flags)
    requires lim <= |ws|
  {
    i <= lim && EncodeIn(ws, lim, 0, flags) == Prefixed(done, EncodeIn(ws, lim, i, flags))
  }

  lemma EncodedNothing(ws: seq<wchar>, lim: nat, flags: Flags)
    requires lim <= |ws|
    ensures EncodedUpTo(ws, lim, 0, [], flags)
  {
    match EncodeIn(ws, lim, 0, flags)
    case None =>
    case Some(b) => assert [] + b == b;
  }

  lemma EncodedAll(ws: seq<wchar>, lim: nat, i: nat, done: seq<byte>, flags: Flags)
    requires lim <= |ws| && EncodedUpTo(ws, lim, i, done, flags)
    requires i == lim || ws[i] == 0
    ensures EncodeIn(ws, lim, 0, flags) == Some(done)
  {
    assert done + [] == done;
  }

  /** A character the encoder steps over (a surrogate or negative value under the ignore flag, or a skipped BOM). */
  lemma SkippedChar(ws: seq<wchar>, lim: nat, i: nat, done: seq<byte>, flags: Flags)
    requires lim <= |ws| && EncodedUpTo(ws, lim, i, done, flags) && i < lim && ws[i] != 0
    requires (flags.ignoreError && (WcharForbidden(ws[i]) || WcharValue(ws[i]) < 0))
      || (!WcharForbidden(ws[i]) && ws[i] == Bom && flags.skipBom)
    ensures EncodedUpTo(ws, lim, i + 1, done, flags)
  {
  }

  /** A character the encoder takes adds its bytes to the output. */
  lemma TakenChar(ws: seq<wchar>, lim: nat, i: nat, done: seq<byte>, flags: Flags)
    requires lim <= |ws| && EncodedUpTo(ws, lim, i, done, flags) && i < lim && ws[i] != 0
    requires !WcharForbidden(ws[i]) && !(ws[i] == Bom && flags.skipBom) && WcharValue(ws[i]) >= 0
    ensures EncodedUpTo(ws, lim, i + 1, done + EncodeSymbol(ws[i], Width(ws[i])), flags)
  {
    PrefixedTwice(done, EncodeSymbol(ws[i], Width(ws[i])), EncodeIn(ws, lim, i + 1, flags));
  }

  /** Once the bytes taken so far exceed the buffer, the whole call returns 0. */
  lemma NoRoom(all: Option<seq<byte>>, taken: seq<byte>, more: Option<seq<byte>>, outsize: nat)
    requires all == Prefixed(taken, more) && |taken| > outsize
    ensures Sized(all, true, outsize) == 0
  {
  }

  /**
   * wchar_to_utf8. `input` is the memory at `in` (None for a null pointer);
   * with `insize` 0 it must hold a 0 character. The result is the number of
   * bytes of the encoding, 0 on error or, in write mode, when the encoding
   * does not fit in `outsize` bytes; in write mode the bytes are in
   * out[..total], and nothing at or beyond `outsize` is touched.
   */
  method WcharToUtf8(input: Option<seq<wchar>>, insize: nat, out: array?<byte>, outsize: nat, flags: Flags)
    returns (total: nat)
    requires input.Some? ==> insize <= |input.value|
    requires input.Some? && insize == 0 ==> exists j :: 0 <= j < |input.value| && input.value[j] == 0
    requires out != null ==> outsize <= out.Length
    modifies out
    ensures input.None? || (out != null && outsize == 0) ==> total == 0
    ensures input.Some? && !(out != null && outsize == 0) ==>
      total == EncodeResult(WideString.Readable(input.value, insize), flags, out != null, outsize)
    ensures out != null ==> total <= outsize
    ensures out != null && input.Some? && total != 0 ==>
      out[..total] == Encode(WideString.Readable(input.value, insize), flags).value
    ensures out != null ==> out[outsize..] == old(out[outsize..])
  {
    if input.None? || (outsize == 0 && out != null) {
      return 0;
    }
    var ws := input.value;
    ghost var nul: nat := |ws|;
    if insize == 0 {
      nul :| nul < |ws| && ws[nul] == 0;
    }
    // With insize 0 the limit is the top of the address space; the 0 character comes first.
    var lim := if insize != 0 then insize else |ws|;
    total := EncodeLoop(ws, lim, insize, nul, out, outsize, flags);
    EncodeInSlice(ws, lim, 0, flags);
    assert ws[0..lim] == WideString.Readable(ws, insize);
  }

  /**
   * The encoding loop of wchar_to_utf8 over the characters below `lim`: the
   * end of the input, or with `insize` 0 the end of the memory, a 0 character
   * at `nul` coming first.
   */
  method EncodeLoop(ws: seq<wchar>, lim: nat, insize: nat, ghost nul: nat, out: array?<byte>, outsize: nat,
                    flags: Flags)
    returns (total: nat)
    requires lim <= |ws|
    requires insize == 0 ==> nul < lim && ws[nul] == 0
    requires out != null ==> 0 < outsize <= out.Length
    modifies out
    ensures total == Sized(EncodeIn(ws, lim, 0, flags), out != null, outsize)
    ensures out != null ==> total <= outsize
    ensures out != null && total != 0 ==> out[..total] == EncodeIn(ws, lim, 0, flags).value
    ensures out != null ==> out[outsize..] == old(out[outsize..])
  {
    var i := 0;
    total := 0;  // in write mode also the write position: p minus the out passed in
    ghost var done: seq<byte> := [];
    EncodedNothing(ws, lim, flags);
    while i < lim
      invariant insize == 0 ==> i <= nul
      invariant EncodedUpTo(ws, lim, i, done, flags)
      invariant total == |done|
      invariant out != null ==> total <= outsize && out[..total] == done
      invariant out != null ==> out[outsize..] == old(out[outsize..])
      decreases lim - i
    {
      var ch := ws[i];
      if ch == 0 {
        break;
      }
      if WcharForbidden(ch) {
        if !flags.ignoreError {
          return 0;
        }
        SkippedChar(ws, lim, i, done, flags);
        i := i + 1;
        continue;
      }
      if ch == Bom && flags.skipBom {
        SkippedChar(ws, lim, i, done, flags);
        i := i + 1;
        continue;
      }
      var v := WcharValue(ch);
      if v < 0 {
        if !flags.ignoreError {
          return 0;
        }
        SkippedChar(ws, lim, i, done, flags);
        i := i + 1;
        continue;
      }
      var n := ByteCount(ch);
      TakenChar(ws, lim, i, done, flags);
      ghost var sym := EncodeSymbol(ch, n);
      if out != null {
        if outsize - total <= n - 1 {
          NoRoom(EncodeIn(ws, lim, 0, flags), done + sym, EncodeIn(ws, lim, i + 1, flags), outsize);
          return 0;  // no space left
        }
        ghost var before := out[..];
        WriteSymbol(out, total, ch, n);
        Extended(before, out[..], total, n, done, sym, outsize);
      }
      total := total + n;
      done := done + sym;
      i := i + 1;
    }
    EncodedAll(ws, lim, i, done, flags);
  }

  /**
   * The encoder's choice of the number of bytes for a non-negative
   * character: the shortest width whose payload bits hold its value.
   */
  method ByteCount(ch: wchar) returns (n: nat)
    requires WcharValue(ch) >= 0
    ensures ShortestWidth(WcharValue(ch), n)
    ensures n == Width(ch)
  {
    Utf8Laws.WidthIsShortest(ch);
    var v := WcharValue(ch);
    if v <= 0x0000_007f {
      n := 1;
    } else if v <= 0x0000_07ff {
      n := 2;
    } else if v <= 0x0000_ffff {
      n := 3;
    } else if v <= 0x001f_ffff {
      n := 4;
    } else if v <= 0x03ff_ffff {
      n := 5;
    } else {
      n := 6;
    }
  }

  /** The buffer after writing `sym` at `p`, behind the bytes `done` already there. */
  lemma Extended(before: seq<byte>, after: seq<byte>, p: nat, n: nat, done: seq<byte>, sym: seq<byte>, outsize: nat)
    requires |after| == |before| && p + n <= outsize <= |before| && |sym| == n && before[..p] == done
    requires forall k :: 0 <= k < n ==> after[p + k] == sym[k]
    requires forall k :: 0 <= k < |after| && !(p <= k < p + n) ==> after[k] == before[k]
    ensures after[..p + n] == done + sym
    ensures after[outsize..] == before[outsize..]
  {
    forall k | 0 <= k < p + n ensures after[..p + n][k] == (done + sym)[k] {
      if k >= p {
        assert after[p + (k - p)] == sym[k - p];
      }
    }
  }

  /**
   * The encoder's switch on `n`: the `n` bytes of `ch`, built from its `oc[]`
   * view as `EncodeSymbol` lists them, are stored at out[p..p+n].
   */
  method WriteSymbol(out: array<byte>, p: nat, ch: wchar, n: nat)
    requires 1 <= n <= 6 && p + n <= out.Length
    modifies out
    ensures forall k :: 0 <= k < n ==> out[p + k] == EncodeSymbol(ch, n)[k]
    ensures forall k :: 0 <= k < out.Length && !(p <= k < p + n) ==> out[k] == old(out[k])
  {
    var b := EncodeSymbol(ch, n);
    forall k | 0 <= k < n {
      out[p + k] := b[k];
    }
  }
}
