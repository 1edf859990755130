/**
 * Properties of the codec specification in module Utf8: what one encoded
 * symbol looks like, the round trip through the decoder, where decoding stops,
 * which inputs are rejected, and how count-only and write mode relate.
 */
module Utf8Laws {
  import opened Wrappers
  import opened Utf8

  // ---------------------------------------------------------------------------
  // One symbol
  // ---------------------------------------------------------------------------

  lemma Closed2(s: seq<byte>)
    requires 2 <= |s|
    ensures Gather(s, 2, 1, 0) == ((s[1] & 0x3f) as wchar) | (HighBits(s[0]) << 6)
  {
  }

  lemma Closed3(s: seq<byte>)
    requires 3 <= |s|
    ensures Gather(s, 3, 1, 0) == ((s[2] & 0x3f) as wchar) | (((s[1] & 0x3f) as wchar) << 6)
      | (HighBits(s[0]) << 12)
  {
  }

  lemma Closed4(s: seq<byte>)
    requires 4 <= |s|
    ensures Gather(s, 4, 1, 0) == ((s[3] & 0x3f) as wchar) | (((s[2] & 0x3f) as wchar) << 6)
      | (((s[1] & 0x3f) as wchar) << 12) | (HighBits(s[0]) << 18)
  {
  }

  lemma Closed5(s: seq<byte>)
    requires 5 <= |s|
    ensures Gather(s, 5, 1, 0) == ((s[4] & 0x3f) as wchar) | (((s[3] & 0x3f) as wchar) << 6)
      | (((s[2] & 0x3f) as wchar) << 12) | (((s[1] & 0x3f) as wchar) << 18)
      | (HighBits(s[0]) << 24)
  {
  }

  lemma Closed6(s: seq<byte>)
    requires 6 <= |s|
    ensures Gather(s, 6, 1, 0) == ((s[5] & 0x3f) as wchar) | (((s[4] & 0x3f) as wchar) << 6)
      | (((s[3] & 0x3f) as wchar) << 12) | (((s[2] & 0x3f) as wchar) << 18)
      | (((s[1] & 0x3f) as wchar) << 24) | (HighBits(s[0]) << 30)
  {
  }

  /** The `n` bytes written for `w` announce `n` bytes, continue properly and decode back to `w`. */
  predicate SymbolOk(w: wchar, n: nat)
    requires 1 <= n <= 6
  {
    var b := EncodeSymbol(w, n);
    SequenceLength(b[0]) == n && ContinuationsOk(b, n) && Assemble(b, n) == w
  }

  lemma Symbol1(w: wchar) requires w <= 0x7f ensures SymbolOk(w, 1) {}

  /**
   * For each width the proof has two halves: the bytes written for `w` have
   * a shape (lead range, continuation marks, payload bits that put together
   * give `w`), and bytes of that shape decode to `w`. Keeping the halves apart
   * keeps the bit-vector reasoning of each small.
   */
  lemma Symbol2(w: wchar) requires 0x80 <= w <= 0x7ff ensures SymbolOk(w, 2) {
    Bits2(w);
    Decodes2(EncodeSymbol(w, 2), w);
  }

  lemma Bits2(w: wchar)
    requires 0x80 <= w <= 0x7ff
    ensures Shape2(EncodeSymbol(w, 2), w)
  {
  }

  predicate Shape2(b: seq<byte>, w: wchar) {
    |b| == 2 && 0xc0 <= b[0] < 0xe0
    && b[1] & 0xc0 == 0x80
    && ((b[1] & 0x3f) as wchar) | (HighBits(b[0]) << 6) == w
  }

  lemma Decodes2(b: seq<byte>, w: wchar)
    requires Shape2(b, w)
    ensures SequenceLength(b[0]) == 2 && ContinuationsOk(b, 2) && Assemble(b, 2) == w
  {
    assert b[..2] == b;
    Closed2(b);
    Marks2(b);
  }

  lemma Marks2(b: seq<byte>)
    requires 2 <= |b|
    requires b[1] & 0xc0 == 0x80
    ensures ContinuationsOk(b, 2)
  {
    forall i | 1 <= i < 2 ensures b[i] & 0xc0 == 0x80 {
      {}
    }
  }

  lemma Symbol3(w: wchar) requires 0x800 <= w <= 0xffff ensures SymbolOk(w, 3) {
    Bits3(w);
    Decodes3(EncodeSymbol(w, 3), w);
  }

  lemma Bits3(w: wchar)
    requires 0x800 <= w <= 0xffff
    ensures Shape3(EncodeSymbol(w, 3), w)
  {
  }

  predicate Shape3(b: seq<byte>, w: wchar) {
    |b| == 3 && 0xe0 <= b[0] < 0xf0
    && b[1] & 0xc0 == 0x80 && b[2] & 0xc0 == 0x80
    && ((b[2] & 0x3f) as wchar) | (((b[1] & 0x3f) as wchar) << 6)
       | (HighBits(b[0]) << 12) == w
  }

  lemma Decodes3(b: seq<byte>, w: wchar)
    requires Shape3(b, w)
    ensures SequenceLength(b[0]) == 3 && ContinuationsOk(b, 3) && Assemble(b, 3) == w
  {
    assert b[..3] == b;
    Closed3(b);
    Marks3(b);
  }

  lemma Marks3(b: seq<byte>)
    requires 3 <= |b|
    requires b[1] & 0xc0 == 0x80 && b[2] & 0xc0 == 0x80
    ensures ContinuationsOk(b, 3)
  {
    forall i | 1 <= i < 3 ensures b[i] & 0xc0 == 0x80 {
      if i == 1 {} else {}
    }
  }

  lemma Symbol4(w: wchar) requires 0x1_0000 <= w <= 0x1f_ffff ensures SymbolOk(w, 4) {
    Bits4(w);
    Decodes4(EncodeSymbol(w, 4), w);
  }

  lemma Bits4(w: wchar)
    requires 0x1_0000 <= w <= 0x1f_ffff
    ensures Shape4(EncodeSymbol(w, 4), w)
  {
  }

  predicate Shape4(b: seq<byte>, w: wchar) {
    |b| == 4 && 0xf0 <= b[0] < 0xf8
    && b[1] & 0xc0 == 0x80 && b[2] & 0xc0 == 0x80 && b[3] & 0xc0 == 0x80
    && ((b[3] & 0x3f) as wchar) | (((b[2] & 0x3f) as wchar) << 6)
       | (((b[1] & 0x3f) as wchar) << 12) | (HighBits(b[0]) << 18) == w
  }

  lemma Decodes4(b: seq<byte>, w: wchar)
    requires Shape4(b, w)
    ensures SequenceLength(b[0]) == 4 && ContinuationsOk(b, 4) && Assemble(b, 4) == w
  {
    assert b[..4] == b;
    Closed4(b);
    Marks4(b);
  }

  lemma Marks4(b: seq<byte>)
    requires 4 <= |b|
    requires b[1] & 0xc0 == 0x80 && b[2] & 0xc0 == 0x80 && b[3] & 0xc0 == 0x80
    ensures ContinuationsOk(b, 4)
  {
    forall i | 1 <= i < 4 ensures b[i] & 0xc0 == 0x80 {
      if i == 1 {} else if i == 2 {} else {}
    }
  }

  lemma Symbol5(w: wchar) requires 0x20_0000 <= w <= 0x3ff_ffff ensures SymbolOk(w, 5) {
    Bits5(w);
    Decodes5(EncodeSymbol(w, 5), w);
  }

  lemma Bits5(w: wchar)
    requires 0x20_0000 <= w <= 0x3ff_ffff
    ensures Shape5(EncodeSymbol(w, 5), w)
  {
  }

  predicate Shape5(b: seq<byte>, w: wchar) {
    |b| == 5 && 0xf8 <= b[0] < 0xfc
    && b[1] & 0xc0 == 0x80 && b[2] & 0xc0 == 0x80 && b[3] & 0xc0 == 0x80 && b[4] & 0xc0 == 0x80
    && ((b[4] & 0x3f) as wchar) | (((b[3] & 0x3f) as wchar) << 6)
       | (((b[2] & 0x3f) as wchar) << 12) | (((b[1] & 0x3f) as wchar) << 18)
       | (HighBits(b[0]) << 24) == w
  }

  lemma Decodes5(b: seq<byte>, w: wchar)
    requires Shape5(b, w)
    ensures SequenceLength(b[0]) == 5 && ContinuationsOk(b, 5) && Assemble(b, 5) == w
  {
    assert b[..5] == b;
    Closed5(b);
    Marks5(b);
  }

  lemma Marks5(b: seq<byte>)
    requires 5 <= |b|
    requires b[1] & 0xc0 == 0x80 && b[2] & 0xc0 == 0x80 && b[3] & 0xc0 == 0x80 && b[4] & 0xc0 == 0x80
    ensures ContinuationsOk(b, 5)
  {
    forall i | 1 <= i < 5 ensures b[i] & 0xc0 == 0x80 {
      if i == 1 {} else if i == 2 {} else if i == 3 {} else {}
    }
  }

  lemma Symbol6(w: wchar) requires 0x400_0000 <= w <= 0x7fff_ffff ensures SymbolOk(w, 6) {
    Bits6(w);
    Decodes6(EncodeSymbol(w, 6), w);
  }

  lemma Bits6(w: wchar)
    requires 0x400_0000 <= w <= 0x7fff_ffff
    ensures Shape6(EncodeSymbol(w, 6), w)
  {
  }

  predicate Shape6(b: seq<byte>, w: wchar) {
    |b| == 6 && 0xfc <= b[0] < 0xfe
    && b[1] & 0xc0 == 0x80 && b[2] & 0xc0 == 0x80 && b[3] & 0xc0 == 0x80 && b[4] & 0xc0 == 0x80 && b[5] & 0xc0 == 0x80
    && ((b[5] & 0x3f) as wchar) | (((b[4] & 0x3f) as wchar) << 6)
       | (((b[3] & 0x3f) as wchar) << 12) | (((b[2] & 0x3f) as wchar) << 18)
       | (((b[1] & 0x3f) as wchar) << 24) | (HighBits(b[0]) << 30) == w
  }

  lemma Decodes6(b: seq<byte>, w: wchar)
    requires Shape6(b, w)
    ensures SequenceLength(b[0]) == 6 && ContinuationsOk(b, 6) && Assemble(b, 6) == w
  {
    assert b[..6] == b;
    Closed6(b);
    Marks6(b);
  }

  lemma Marks6(b: seq<byte>)
    requires 6 <= |b|
    requires b[1] & 0xc0 == 0x80 && b[2] & 0xc0 == 0x80 && b[3] & 0xc0 == 0x80 && b[4] & 0xc0 == 0x80 && b[5] & 0xc0 == 0x80
    ensures ContinuationsOk(b, 6)
  {
    forall i | 1 <= i < 6 ensures b[i] & 0xc0 == 0x80 {
      if i == 1 {} else if i == 2 {} else if i == 3 {} else if i == 4 {} else {}
    }
  }

  lemma Lead1(w: wchar) requires w <= 0x7f ensures Lead(EncodeSymbol(w, 1)[0], w) {}
  lemma Lead2(w: wchar) requires 0x80 <= w <= 0x7ff ensures Lead(EncodeSymbol(w, 2)[0], w) {}
  lemma Lead3(w: wchar) requires 0x800 <= w <= 0xffff ensures Lead(EncodeSymbol(w, 3)[0], w) {}
  lemma Lead4(w: wchar) requires 0x1_0000 <= w <= 0x1f_ffff ensures Lead(EncodeSymbol(w, 4)[0], w) {}
  lemma Lead5(w: wchar) requires 0x20_0000 <= w <= 0x3ff_ffff ensures Lead(EncodeSymbol(w, 5)[0], w) {}
  lemma Lead6(w: wchar) requires 0x400_0000 <= w <= 0x7fff_ffff ensures Lead(EncodeSymbol(w, 6)[0], w) {}

  /** The lead byte written for `w` is NUL only for 0, and forbidden exactly for U+140000..U+17FFFF. */
  predicate Lead(lead: byte, w: wchar) {
    (lead == 0 <==> w == 0) && (Utf8Forbidden(lead) <==> 0x14_0000 <= w <= 0x17_ffff)
  }

  /** The signed value of a wide character is below 2^31. */
  lemma ValueBelow(w: wchar)
    ensures WcharValue(w) < 0x8000_0000
  {
  }

  /** The bound 2^PayloadBits(n) of each width's payload, as a number. */
  lemma PayloadLimits()
    ensures Pow2(PayloadBits(1)) == 0x80 && Pow2(PayloadBits(2)) == 0x800
    ensures Pow2(PayloadBits(3)) == 0x1_0000 && Pow2(PayloadBits(4)) == 0x20_0000
    ensures Pow2(PayloadBits(5)) == 0x400_0000 && Pow2(PayloadBits(6)) == 0x8000_0000
  {
    assert Pow2(7) == 0x80;
    assert Pow2(11) == 0x800;
    assert Pow2(16) == 0x1_0000;
    assert Pow2(21) == 0x20_0000;
    assert Pow2(26) == 0x400_0000;
    assert Pow2(31) == 0x8000_0000;
  }

  /**
   * The width the encoder picks is the shortest one whose payload bits hold
   * the character's value.
   */
  lemma WidthIsShortest(w: wchar)
    requires WcharValue(w) >= 0
    ensures WcharValue(w) < Pow2(PayloadBits(Width(w)))
    ensures Width(w) > 1 ==> WcharValue(w) >= Pow2(PayloadBits(Width(w) - 1))
  {
    PayloadLimits();
    ValueBelow(w);
  }

  /**
   * The bytes the encoder writes for a non-negative `w` form one sequence that
   * the decoder reads back as `w`: the lead byte announces exactly `Width(w)`
   * bytes, the others are continuation bytes, the lead is NUL only for 0, and it
   * is a forbidden lead exactly for U+140000..U+17FFFF (lead 0xF5).
   */
  lemma SymbolRoundTrip(w: wchar)
    requires WcharValue(w) >= 0
    ensures SymbolOk(w, Width(w))
    ensures (EncodeSymbol(w, Width(w))[0] == 0) <==> w == 0
    ensures Utf8Forbidden(EncodeSymbol(w, Width(w))[0]) <==> 0x14_0000 <= WcharValue(w) <= 0x17_ffff
  {
    SymbolAtWidth(w);
    LeadAtWidth(w);
    assert 0x14_0000 <= WcharValue(w) <= 0x17_ffff <==> 0x14_0000 <= w <= 0x17_ffff;
  }

  lemma SymbolAtWidth(w: wchar)
    requires WcharValue(w) >= 0
    ensures SymbolOk(w, Width(w))
  {
    var v := WcharValue(w);
    if v <= 0x7f {
      Symbol1(w);
    } else if v <= 0x7ff {
      Symbol2(w);
    } else if v <= 0xffff {
      Symbol3(w);
    } else if v <= 0x1f_ffff {
      Symbol4(w);
    } else if v <= 0x3ff_ffff {
      Symbol5(w);
    } else {
      Symbol6(w);
    }
  }

  lemma LeadAtWidth(w: wchar)
    requires WcharValue(w) >= 0
    ensures Lead(EncodeSymbol(w, Width(w))[0], w)
  {
    var v := WcharValue(w);
    if v <= 0x7f {
      Lead1(w);
    } else if v <= 0x7ff {
      Lead2(w);
    } else if v <= 0xffff {
      Lead3(w);
    } else if v <= 0x1f_ffff {
      Lead4(w);
    } else if v <= 0x3ff_ffff {
      Lead5(w);
    } else {
      Lead6(w);
    }
  }

  // ---------------------------------------------------------------------------
  // Decoding depends only on what it reads
  // ---------------------------------------------------------------------------

  /** Assembling reads only the first `n` bytes. */
  lemma AssemblePrefix(s: seq<byte>, t: seq<byte>, n: nat)
    requires 1 <= n <= |s| && n <= |t| && n <= 6 && s[..n] == t[..n]
    ensures Assemble(s, n) == Assemble(t, n)
  {
  }

  /** One iteration of the value loop. */
  lemma GatherStep(b: seq<byte>, n: nat, i: nat, acc: wchar)
    requires 1 <= i < n <= |b| && n <= 6
    ensures Gather(b, n, i, acc) == Gather(b, n, i + 1, acc | Shl((b[n - i] & 0x3f) as wchar, i))
  {
  }

  /** The lead byte's payload on top, after the value loop. */
  lemma GatherLast(b: seq<byte>, n: nat, acc: wchar, high: wchar)
    requires 1 <= n <= |b| && n <= 6 && high == HighBits(b[0])
    ensures Gather(b, n, n, acc) == acc | Shl(high, n)
  {
  }

  /** Unfolding of `Candidates` over a well-formed first sequence followed by anything. */
  lemma CandidatesCons(b: seq<byte>, rest: seq<byte>, flags: Flags)
    requires |b| >= 1 && b[0] != 0 && (flags.ignoreError || !Utf8Forbidden(b[0]))
    requires SequenceLength(b[0]) == |b| && |b| <= 6 && ContinuationsOk(b, |b|)
    ensures Candidates(b + rest, flags) == Prefixed([Assemble(b, |b|)], Candidates(rest, flags))
  {
    var s := b + rest;
    var n := |b|;
    assert s[0] == b[0];
    assert ContinuationsOk(s, n) by {
      forall i | 1 <= i < n ensures s[i] & 0xc0 == 0x80 {
        assert s[i] == b[i];
      }
    }
    assert s[..n] == b[..n];
    AssemblePrefix(s, b, n);
    assert s[n..] == rest;
  }

  // ---------------------------------------------------------------------------
  // Round trip
  // ---------------------------------------------------------------------------

  /** A character the encoder writes and the decoder reads back under `flags`. */
  predicate Encodable(w: wchar, flags: Flags) {
    0 < WcharValue(w) && !WcharForbidden(w)
    && (flags.ignoreError || !(0x14_0000 <= WcharValue(w) <= 0x17_ffff))
  }

  /**
   * Decoding the encoder's output gives back every character the encoder took,
   * which are the input without the byte-order marks `skipBom` drops.
   */
  lemma {:induction false} DecodeEncode(ws: seq<wchar>, flags: Flags)
    requires forall i :: 0 <= i < |ws| ==> Encodable(ws[i], flags)
    ensures Encode(ws, flags).Some?
    ensures Candidates(Encode(ws, flags).value, flags) == Some(Kept(ws, flags))
    decreases |ws|
  {
    if |ws| > 0 {
      var w := ws[0];
      assert Encodable(w, flags);
      assert forall i :: 0 <= i < |ws[1..]| ==> Encodable(ws[1..][i], flags) by {
        forall i | 0 <= i < |ws[1..]| ensures Encodable(ws[1..][i], flags) {
          assert ws[1..][i] == ws[i + 1];
        }
      }
      DecodeEncode(ws[1..], flags);
      if !(w == Bom && flags.skipBom) {
        var n := Width(w);
        var b := EncodeSymbol(w, n);
        SymbolRoundTrip(w);
        assert w != 0;
        CandidatesCons(b, Encode(ws[1..], flags).value, flags);
      }
    }
  }

  /** The code points U+0001..U+10FFFF other than surrogates. */
  predicate Scalar(w: wchar) {
    0 < WcharValue(w) <= 0x10_ffff && !WcharForbidden(w)
  }

  lemma {:induction false} KeptAll(c: seq<wchar>, flags: Flags)
    requires forall i :: 0 <= i < |c| ==> !Dropped(c[i], flags)
    ensures Kept(c, flags) == c
    decreases |c|
  {
    if |c| > 0 {
      assert c[1..][0..] == c[1..];
      assert forall i :: 0 <= i < |c[1..]| ==> !Dropped(c[1..][i], flags) by {
        forall i | 0 <= i < |c[1..]| ensures !Dropped(c[1..][i], flags) {
          assert c[1..][i] == c[i + 1];
        }
      }
      KeptAll(c[1..], flags);
      assert !Dropped(c[0], flags);
    }
  }

  lemma {:induction false} StoreAllFits(c: seq<wchar>, flags: Flags, outsize: nat, k: nat)
    requires forall i :: 0 <= i < |c| ==> !Dropped(c[i], flags)
    requires k + |c| <= outsize
    ensures Store(c, flags, outsize, k) == Some(c)
    decreases |c|
  {
    if |c| > 0 {
      assert forall i :: 0 <= i < |c[1..]| ==> !Dropped(c[1..][i], flags) by {
        forall i | 0 <= i < |c[1..]| ensures !Dropped(c[1..][i], flags) {
          assert c[1..][i] == c[i + 1];
        }
      }
      StoreAllFits(c[1..], flags, outsize, k + 1);
      assert !Dropped(c[0], flags);
      assert [c[0]] + c[1..] == c;
    }
  }

  /**
   * utf8_to_wchar(wchar_to_utf8(s)) == s: with no flags, a string of code points
   * U+0001..U+10FFFF without surrogates is encoded, and decoding the bytes —
   * counted, or written into a buffer of at least |ws| characters — gives back
   * exactly that string.
   */
  lemma RoundTrip(ws: seq<wchar>, outsize: nat)
    requires forall i :: 0 <= i < |ws| ==> Scalar(ws[i])
    requires |ws| <= outsize
    ensures Encode(ws, NoFlags).Some?
    ensures Candidates(Encode(ws, NoFlags).value, NoFlags) == Some(ws)
    ensures Store(ws, NoFlags, outsize, 0) == Some(ws)
    ensures DecodeResult(Encode(ws, NoFlags).value, NoFlags, false, 0) == |ws|
    ensures DecodeResult(Encode(ws, NoFlags).value, NoFlags, true, outsize) == |ws|
  {
    assert forall i :: 0 <= i < |ws| ==> Encodable(ws[i], NoFlags);
    DecodeEncode(ws, NoFlags);
    assert forall i :: 0 <= i < |ws| ==> !Dropped(ws[i], NoFlags);
    KeptAll(ws, NoFlags);
    StoreAllFits(ws, NoFlags, outsize, 0);
  }

  /**
   * For one positive, non-surrogate character that `skipBom` does not drop, the
   * decoder reads the encoder's bytes back exactly when the lead byte is not
   * 0xF5 or the ignore flag is set: U+140000..U+17FFFF are encoded with a lead
   * the decoder forbids.
   */
  lemma SymbolDecodesIff(w: wchar, flags: Flags)
    requires 0 < WcharValue(w) && !WcharForbidden(w) && !(w == Bom && flags.skipBom)
    ensures Encode([w], flags) == Some(EncodeSymbol(w, Width(w)))
    ensures Candidates(EncodeSymbol(w, Width(w)), flags) == Some([w])
      <==> (flags.ignoreError || !(0x14_0000 <= WcharValue(w) <= 0x17_ffff))
  {
    var b := EncodeSymbol(w, Width(w));
    SymbolRoundTrip(w);
    assert w != 0;
    assert [w][1..] == [];
    assert b + [] == b;
    if flags.ignoreError || !(0x14_0000 <= WcharValue(w) <= 0x17_ffff) {
      CandidatesCons(b, [], flags);
      assert Candidates([], flags) == Some([]);
      assert Assemble(b, |b|) == w;
      assert [w] + [] == [w];
    } else {
      assert Utf8Forbidden(b[0]);
    }
  }

  // ---------------------------------------------------------------------------
  // Where decoding stops
  // ---------------------------------------------------------------------------

  /**
   * Decoding stops at the first NUL byte: the bytes after it are never looked
   * at, whether the input is bounded by its size or by the NUL alone.
   */
  lemma {:induction false} StopsAtNul(s: seq<byte>, k: nat, flags: Flags)
    requires k < |s| && s[k] == 0
    requires forall j :: 0 <= j < k ==> s[j] != 0
    ensures Candidates(s, flags) == Candidates(s[..k], flags)
    decreases |s|
  {
    var t := s[..k];
    if k > 0 {
      assert s[0] == t[0];
      var n := SequenceLength(s[0]);
      if n != 0 {
        ContinuationsBeforeNul(s, k, n);
        if ContinuationsOk(s, n) {
          assert s[..n] == t[..n];
          NulAfterDrop(s, k, n);
          StopsAtNul(s[n..], k - n, flags);
        }
      }
      NulAfterDrop(s, k, 1);
      StopsAtNul(s[1..], k - 1, flags);
    }
  }

  /** Dropping `d` bytes before the first NUL keeps it the first NUL. */
  lemma NulAfterDrop(s: seq<byte>, k: nat, d: nat)
    requires d <= k < |s| && s[k] == 0
    requires forall j :: 0 <= j < k ==> s[j] != 0
    ensures s[d..][k - d] == 0
    ensures forall j :: 0 <= j < k - d ==> s[d..][j] != 0
    ensures s[d..][..k - d] == s[..k][d..]
  {
    forall j | 0 <= j < k - d ensures s[d..][j] != 0 {
      assert s[d..][j] == s[d + j];
    }
  }

  /** A NUL byte is no continuation byte, so no sequence runs across it. */
  lemma ContinuationsBeforeNul(s: seq<byte>, k: nat, n: nat)
    requires 0 < k < |s| && s[k] == 0
    ensures ContinuationsOk(s, n) <==> ContinuationsOk(s[..k], n)
  {
    var t := s[..k];
    if ContinuationsOk(s, n) {
      assert s[k] & 0xc0 != 0x80;
      assert n <= k;
      forall i | 1 <= i < n ensures t[i] & 0xc0 == 0x80 {
        assert t[i] == s[i];
      }
    }
    if ContinuationsOk(t, n) {
      forall i | 1 <= i < n ensures s[i] & 0xc0 == 0x80 {
        assert t[i] == s[i];
      }
    }
  }

  // ---------------------------------------------------------------------------
  // Rejected input
  // ---------------------------------------------------------------------------

  /** Without the ignore flag, an input that decodes begins with a well-formed sequence. */
  lemma FirstSequence(s: seq<byte>, flags: Flags)
    requires !flags.ignoreError && Candidates(s, flags).Some? && |s| > 0 && s[0] != 0
    ensures !Utf8Forbidden(s[0])
    ensures 1 <= SequenceLength(s[0]) <= 6 && ContinuationsOk(s, SequenceLength(s[0]))
    ensures Candidates(s, flags)
      == Prefixed([Assemble(s, SequenceLength(s[0]))], Candidates(s[SequenceLength(s[0])..], flags))
  {
  }

  lemma AppendEmpty(p: seq<byte>, t: seq<byte>, flags: Flags)
    requires |p| == 0
    ensures Candidates(p + t, flags) == Prefixed(Candidates(p, flags).value, Candidates(t, flags))
  {
    assert p + t == t;
    assert Candidates(p, flags).value == [];
    match Candidates(t, flags)
    case None =>
    case Some(ct) => assert [] + ct == ct;
  }

  /** Unfolding of `Candidates` over the first sequence of `p` when more bytes follow `p`. */
  lemma AppendUnfold(p: seq<byte>, t: seq<byte>, flags: Flags, n: nat)
    requires |p| > 0 && p[0] != 0 && !Utf8Forbidden(p[0])
    requires n == SequenceLength(p[0]) && 1 <= n <= |p| && n <= 6 && ContinuationsOk(p, n)
    ensures Candidates(p + t, flags) == Prefixed([Assemble(p, n)], Candidates(p[n..] + t, flags))
  {
    var s := p + t;
    assert s[0] == p[0];
    assert ContinuationsOk(s, n) by {
      forall i | 1 <= i < n ensures s[i] & 0xc0 == 0x80 {
        assert s[i] == p[i];
      }
    }
    assert s[..n] == p[..n];
    assert s[n..] == p[n..] + t;
  }

  /** One step of `CandidatesAppend`: the first sequence of `p`, given the claim for the rest of `p`. */
  lemma AppendStep(p: seq<byte>, t: seq<byte>, flags: Flags, n: nat)
    requires |p| > 0 && p[0] != 0 && !Utf8Forbidden(p[0])
    requires n == SequenceLength(p[0]) && 1 <= n <= |p| && n <= 6 && ContinuationsOk(p, n)
    requires Candidates(p, flags) == Prefixed([Assemble(p, n)], Candidates(p[n..], flags))
    requires Candidates(p[n..], flags).Some?
    requires Candidates(p[n..] + t, flags) == Prefixed(Candidates(p[n..], flags).value, Candidates(t, flags))
    ensures Candidates(p + t, flags) == Prefixed(Candidates(p, flags).value, Candidates(t, flags))
  {
    AppendUnfold(p, t, flags, n);
    var a := [Assemble(p, n)];
    PrefixedTwice(a, Candidates(p[n..], flags).value, Candidates(t, flags));
  }

  /**
   * Without the ignore flag, a NUL-free prefix that decodes completely is
   * decoded the same way when more bytes follow it.
   */
  lemma {:induction false} CandidatesAppend(p: seq<byte>, t: seq<byte>, flags: Flags)
    requires !flags.ignoreError
    requires forall j :: 0 <= j < |p| ==> p[j] != 0
    requires Candidates(p, flags).Some?
    ensures Candidates(p + t, flags) == Prefixed(Candidates(p, flags).value, Candidates(t, flags))
    decreases |p|
  {
    if |p| == 0 {
      AppendEmpty(p, t, flags);
    } else {
      FirstSequence(p, flags);
      var n := SequenceLength(p[0]);
      assert forall j :: 0 <= j < |p[n..]| ==> p[n..][j] != 0 by {
        forall j | 0 <= j < |p[n..]| ensures p[n..][j] != 0 {
          assert p[n..][j] == p[n + j];
        }
      }
      CandidatesAppend(p[n..], t, flags);
      AppendStep(p, t, flags, n);
    }
  }

  /** A lead byte that cannot start a sequence here: forbidden, invalid, cut short or badly continued. */
  predicate BadSequenceAt(t: seq<byte>, flags: Flags)
    requires |t| > 0
  {
    var n := SequenceLength(t[0]);
    (Utf8Forbidden(t[0]) && !flags.ignoreError) || n == 0 || !ContinuationsOk(t, n)
  }

  /**
   * Without the ignore flag, the decoder returns 0 when, after any prefix that
   * decodes, it meets a forbidden lead byte (0xC0, 0xC1, 0xF5, 0xFF), a byte that
   * is not a lead byte, a sequence cut short by the end of the input, or a
   * continuation byte not of the form 10xxxxxx.
   */
  lemma MalformedRejected(p: seq<byte>, t: seq<byte>, flags: Flags, write: bool, outsize: nat)
    requires !flags.ignoreError
    requires forall j :: 0 <= j < |p| ==> p[j] != 0
    requires Candidates(p, flags).Some?
    requires |t| > 0 && t[0] != 0 && BadSequenceAt(t, flags)
    ensures Candidates(p + t, flags) == None
    ensures DecodeResult(p + t, flags, write, outsize) == 0
  {
    CandidatesAppend(p, t, flags);
  }

  /** A sequence cut short by `insize` is a bad sequence. */
  lemma TruncatedIsBad(t: seq<byte>, flags: Flags)
    requires |t| > 0 && SequenceLength(t[0]) > |t|
    ensures BadSequenceAt(t, flags)
  {
  }

  // ---------------------------------------------------------------------------
  // Storing: count-only mode against write mode
  // ---------------------------------------------------------------------------

  /** What write mode stores is the kept code points. */
  lemma {:induction false} StoreIsKept(c: seq<wchar>, flags: Flags, outsize: nat, k: nat)
    requires Store(c, flags, outsize, k).Some?
    ensures Store(c, flags, outsize, k).value == Kept(c, flags)
    decreases |c|
  {
    if |c| > 0 {
      if WcharForbidden(c[0]) || (c[0] == Bom && flags.skipBom) {
        StoreIsKept(c[1..], flags, outsize, k);
      } else {
        StoreIsKept(c[1..], flags, outsize, k + 1);
      }
    }
  }

  /** A code point is kept exactly when it was assembled and is neither a surrogate nor a dropped byte-order mark. */
  lemma {:induction false} KeptMembers(c: seq<wchar>, flags: Flags, w: wchar)
    ensures w in Kept(c, flags) <==> w in c && !Dropped(w, flags)
    decreases |c|
  {
    if |c| > 0 {
      KeptMembers(c[1..], flags, w);
      assert c == [c[0]] + c[1..];
    }
  }

  /** Without the ignore flag, a surrogate anywhere makes write mode fail. */
  lemma {:induction false} StoreRejectsSurrogate(c: seq<wchar>, flags: Flags, outsize: nat, k: nat, j: nat)
    requires !flags.ignoreError && j < |c| && WcharForbidden(c[j])
    ensures Store(c, flags, outsize, k) == None
    decreases |c|
  {
    if j > 0 && k < outsize && !WcharForbidden(c[0]) {
      assert c[1..][j - 1] == c[j];
      if c[0] == Bom && flags.skipBom {
        StoreRejectsSurrogate(c[1..], flags, outsize, k, j - 1);
      } else {
        StoreRejectsSurrogate(c[1..], flags, outsize, k + 1, j - 1);
      }
    }
  }

  /**
   * With no flags and no surrogate, write mode succeeds exactly when the buffer
   * (with `k` cells used) has room for every assembled code point.
   */
  lemma {:induction false} StoreRoom(c: seq<wchar>, outsize: nat, k: nat)
    requires k <= outsize
    requires forall i :: 0 <= i < |c| ==> !WcharForbidden(c[i])
    ensures Store(c, NoFlags, outsize, k).Some? <==> k + |c| <= outsize
    decreases |c|
  {
    if |c| > 0 && k < outsize {
      assert forall i :: 0 <= i < |c[1..]| ==> !WcharForbidden(c[1..][i]) by {
        forall i | 0 <= i < |c[1..]| ensures !WcharForbidden(c[1..][i]) {
          assert c[1..][i] == c[i + 1];
        }
      }
      assert !WcharForbidden(c[0]);
      StoreRoom(c[1..], outsize, k + 1);
    }
  }

  /**
   * With no flags, count-only mode and write mode agree: a successful write
   * returns the count; with room for the count and no surrogate the write
   * succeeds; with less room than a non-zero count it returns 0.
   */
  lemma CountMatchesWrite(s: seq<byte>, outsize: nat)
    ensures DecodeResult(s, NoFlags, true, outsize) != 0
      ==> DecodeResult(s, NoFlags, true, outsize) == DecodeResult(s, NoFlags, false, 0)
    ensures DecodeResult(s, NoFlags, true, outsize) != 0
      ==> Kept(Candidates(s, NoFlags).value, NoFlags) == Candidates(s, NoFlags).value
    ensures Candidates(s, NoFlags).Some?
      && (forall i :: 0 <= i < |Candidates(s, NoFlags).value| ==> !WcharForbidden(Candidates(s, NoFlags).value[i]))
      ==> (DecodeResult(s, NoFlags, true, outsize) == DecodeResult(s, NoFlags, false, 0)
           <==> DecodeResult(s, NoFlags, false, 0) <= outsize)
  {
    match Candidates(s, NoFlags)
    case None =>
    case Some(c) =>
      var st := Store(c, NoFlags, outsize, 0);
      if st.Some? {
        StoreIsKept(c, NoFlags, outsize, 0);
        forall i | 0 <= i < |c| ensures !WcharForbidden(c[i]) {
          if WcharForbidden(c[i]) {
            StoreRejectsSurrogate(c, NoFlags, outsize, 0, i);
          }
        }
        assert forall i :: 0 <= i < |c| ==> !Dropped(c[i], NoFlags);
        KeptAll(c, NoFlags);
      }
      if forall i :: 0 <= i < |c| ==> !WcharForbidden(c[i]) {
        StoreRoom(c, outsize, 0);
        if |c| > 0 && st.None? {
          assert DecodeResult(s, NoFlags, true, outsize) == 0;
        }
      }
  }

  /** With no flags nothing is dropped: what is stored is everything. */
  lemma StoreNoFlags(c: seq<wchar>, outsize: nat)
    ensures Store(c, NoFlags, outsize, 0).Some? ==> Store(c, NoFlags, outsize, 0).value == c
  {
    if Store(c, NoFlags, outsize, 0).Some? {
      StoreIsKept(c, NoFlags, outsize, 0);
      forall i | 0 <= i < |c| ensures !Dropped(c[i], NoFlags) {
        if WcharForbidden(c[i]) {
          StoreRejectsSurrogate(c, NoFlags, outsize, 0, i);
        }
      }
      KeptAll(c, NoFlags);
    }
  }

  /** What is stored fits in the cells left. */
  lemma {:induction false} StoreBound(c: seq<wchar>, flags: Flags, outsize: nat, k: nat)
    requires k <= outsize && Store(c, flags, outsize, k).Some?
    ensures k + |Store(c, flags, outsize, k).value| <= outsize
    decreases |c|
  {
    if |c| > 0 {
      if WcharForbidden(c[0]) || (c[0] == Bom && flags.skipBom) {
        StoreBound(c[1..], flags, outsize, k);
      } else {
        StoreBound(c[1..], flags, outsize, k + 1);
      }
    }
  }

  /** In write mode the decoder never returns more than `outsize`. */
  lemma DecodeResultBound(s: seq<byte>, flags: Flags, outsize: nat)
    ensures DecodeResult(s, flags, true, outsize) <= outsize
  {
    match Candidates(s, flags)
    case None =>
    case Some(c) =>
      if Store(c, flags, outsize, 0).Some? {
        StoreBound(c, flags, outsize, 0);
      }
  }

  /** Storing `a + b` is storing `a`, then `b` into the cells left. */
  lemma {:induction false} StoreAppend(a: seq<wchar>, b: seq<wchar>, flags: Flags, outsize: nat, k: nat)
    ensures Store(a + b, flags, outsize, k) ==
      match Store(a, flags, outsize, k)
      case None => None
      case Some(x) => Prefixed(x, Store(b, flags, outsize, k + |x|))
    decreases |a|
  {
    if |a| == 0 {
      assert a + b == b;
      match Store(b, flags, outsize, k)
      case None =>
      case Some(y) => assert [] + y == y;
    } else {
      assert (a + b)[0] == a[0];
      assert (a + b)[1..] == a[1..] + b;
      if k >= outsize {
      } else if WcharForbidden(a[0]) || (a[0] == Bom && flags.skipBom) {
        StoreAppend(a[1..], b, flags, outsize, k);
      } else {
        StoreAppend(a[1..], b, flags, outsize, k + 1);
        match Store(a[1..], flags, outsize, k + 1)
        case None =>
        case Some(x) =>
          PrefixedTwice([a[0]], x, Store(b, flags, outsize, k + 1 + |x|));
      }
    }
  }
}
