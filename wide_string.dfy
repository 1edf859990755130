/**
 * The conversion routines of deps/wide-string.cpp (non-Windows branch):
 * utf8_to_wchar and wchar_to_utf8 walk their input with a read position and
 * write into a caller-supplied buffer, or only count when that buffer is null;
 * os_utf8_to_wcs and the two to_wide overloads are built on the decoder.
 * A C pointer that may be null is an Option (input) or an `array?` (output).
 */
module WideString {
  import opened Wrappers
  import opened Utf8
  import opened Utf8Laws

  /** The bytes the decoder may read: `insize` of them, or everything up to the NUL when `insize` is 0. */
  function Readable<T>(s: seq<T>, insize: nat): seq<T>
    requires insize <= |s|
  {
    if insize != 0 then s[..insize] else s
  }

  /** Bytes p+1..p+n-1 of `s` lie below `lim` and all have the form 10xxxxxx. */
  predicate ContinuationsIn(s: seq<byte>, lim: nat, p: nat, n: nat)
    requires lim <= |s|
  {
    p + n <= lim && forall j :: p + 1 <= j < p + n ==> s[j] & 0xc0 == 0x80
  }

  /**
   * `Candidates` of the bytes s[p..lim], read where they lie: the view of the
   * decoder, which walks its input with a read position.
   */
  function CandidatesIn(s: seq<byte>, lim: nat, p: nat, flags: Flags): Option<seq<wchar>>
    requires p <= lim <= |s|
    decreases lim - p
  {
    if p == lim || s[p] == 0 then Some([])
    else if Utf8Forbidden(s[p]) && !flags.ignoreError then None
    else
      var n := SequenceLength(s[p]);
      if n == 0 || !ContinuationsIn(s, lim, p, n) then
        if flags.ignoreError then CandidatesIn(s, lim, p + 1, flags) else None
      else Prefixed([Assemble(s[p..p + n], n)], CandidatesIn(s, lim, p + n, flags))
  }

  /** Reading in place decodes exactly the slice. */
  lemma {:induction false} CandidatesInSlice(s: seq<byte>, lim: nat, p: nat, flags: Flags)
    requires p <= lim <= |s|
    ensures CandidatesIn(s, lim, p, flags) == Candidates(s[p..lim], flags)
    decreases lim - p
  {
    var t := s[p..lim];
    if p == lim || s[p] == 0 {
      assert |t| == 0 || t[0] == 0;
    } else {
      assert t[0] == s[p];
      var n := SequenceLength(s[p]);
      ContinuationsSlice(s, lim, p, n);
      if n == 0 || !ContinuationsIn(s, lim, p, n) {
        if flags.ignoreError {
          CandidatesInSlice(s, lim, p + 1, flags);
          assert t[1..] == s[p + 1..lim];
        }
      } else {
        CandidatesInSlice(s, lim, p + n, flags);
        assert t[n..] == s[p + n..lim];
        AssembleSlice(s, lim, p, n);
      }
    }
  }

  lemma ContinuationsSlice(s: seq<byte>, lim: nat, p: nat, n: nat)
    requires p < lim <= |s|
    ensures ContinuationsIn(s, lim, p, n) <==> ContinuationsOk(s[p..lim], n)
  {
    var t := s[p..lim];
    if ContinuationsIn(s, lim, p, n) {
      forall i | 1 <= i < n ensures t[i] & 0xc0 == 0x80 {
        assert t[i] == s[p + i];
      }
    } else if p + n <= lim {
      var j :| p + 1 <= j < p + n && s[j] & 0xc0 != 0x80;
      assert t[j - p] == s[j];
    }
  }

  lemma AssembleSlice(s: seq<byte>, lim: nat, p: nat, n: nat)
    requires 1 <= n <= 6 && p + n <= lim <= |s|
    ensures Assemble(s[p..lim], n) == Assemble(s[p..p + n], n)
  {
    assert s[p..lim][..n] == s[p..p + n][..n];
    AssemblePrefix(s[p..lim], s[p..p + n], n);
  }

  /** The decoder has read up to `p`, assembling `done`; the rest is still ahead. */
  ghost predicate DecodedUpTo(s: seq<byte>, lim: nat, p: nat, done: seq<wchar>, flags: Flags)
    requires lim <= |s|
  {
    p <= lim && CandidatesIn(s, lim, 0, flags) == Prefixed(done, CandidatesIn(s, lim, p, flags))
  }

  lemma DecodedNothing(s: seq<byte>, lim: nat, flags: Flags)
    requires lim <= |s|
    ensures DecodedUpTo(s, lim, 0, [], flags)
  {
    match CandidatesIn(s, lim, 0, flags)
    case None =>
    case Some(c) => assert [] + c == c;
  }

  /** Reaching a NUL or the limit: everything has been assembled. */
  lemma DecodedAll(s: seq<byte>, lim: nat, p: nat, done: seq<wchar>, flags: Flags)
    requires lim <= |s| && DecodedUpTo(s, lim, p, done, flags)
    requires p == lim || s[p] == 0
    ensures CandidatesIn(s, lim, 0, flags) == Some(done)
  {
    assert done + [] == done;
  }

  /** Under the ignore flag a bad lead byte is stepped over. */
  lemma SkippedAt(s: seq<byte>, lim: nat, p: nat, done: seq<wchar>, flags: Flags)
    requires lim <= |s| && DecodedUpTo(s, lim, p, done, flags) && p < lim && s[p] != 0 && flags.ignoreError
    requires SequenceLength(s[p]) == 0 || !ContinuationsIn(s, lim, p, SequenceLength(s[p]))
    ensures DecodedUpTo(s, lim, p + 1, done, flags)
  {
  }

  /** A well-formed sequence at `p` adds its code point to what has been assembled. */
  lemma AcceptedAt(s: seq<byte>, lim: nat, p: nat, n: nat, done: seq<wchar>, flags: Flags)
    requires lim <= |s| && DecodedUpTo(s, lim, p, done, flags) && p < lim && s[p] != 0
    requires flags.ignoreError || !Utf8Forbidden(s[p])
    requires n == SequenceLength(s[p]) && n != 0 && ContinuationsIn(s, lim, p, n)
    ensures p + n <= lim
    ensures DecodedUpTo(s, lim, p + n, done + [Assemble(s[p..p + n], n)], flags)
  {
    PrefixedTwice(done, [Assemble(s[p..p + n], n)], CandidatesIn(s, lim, p + n, flags));
  }

  /**
   * utf8_to_wchar. `input` is the memory at `in` (None for a null pointer);
   * with `insize` 0 it must hold a NUL. The result is the number of wide
   * characters produced, 0 on error; in write mode they are in out[..total] and
   * nothing at or beyond `outsize` is touched.
   */
  method Utf8ToWchar(input: Option<seq<byte>>, insize: nat, out: array?<wchar>, outsize: nat, flags: Flags)
    returns (total: nat)
    requires input.Some? ==> insize <= |input.value|
    requires input.Some? && insize == 0 ==> exists j :: 0 <= j < |input.value| && input.value[j] == 0
    requires out != null ==> outsize <= out.Length
    modifies out
    ensures input.None? || (out != null && outsize == 0) ==> total == 0
    ensures input.Some? && !(out != null && outsize == 0) ==>
      total == DecodeResult(Readable(input.value, insize), flags, out != null, outsize)
    ensures out != null ==> total <= outsize
    ensures out != null && input.Some? && total != 0 ==>
      out[..total] == Kept(Candidates(Readable(input.value, insize), flags).value, flags)
    ensures out != null ==> out[outsize..] == old(out[outsize..])
  {
    if input.None? || (outsize == 0 && out != null) {
      return 0;
    }
    var s := input.value;
    ghost var nul: nat := |s|;
    if insize == 0 {
      nul :| nul < |s| && s[nul] == 0;
    }
    // With insize 0 the limit is the top of the address space; the NUL comes first.
    var lim := if insize != 0 then insize else |s|;
    total := DecodeLoop(s, lim, insize, nul, out, outsize, flags);
    CandidatesInSlice(s, lim, 0, flags);
    assert s[0..lim] == Readable(s, insize);
  }

  /**
   * The decoding loop of utf8_to_wchar over the bytes below `lim`: the end of
   * the input, or with `insize` 0 the end of the memory, a NUL at `nul` coming
   * first.
   */
  method DecodeLoop(s: seq<byte>, lim: nat, insize: nat, ghost nul: nat, out: array?<wchar>, outsize: nat, flags: Flags)
    returns (total: nat)
    requires lim <= |s| && (insize != 0 ==> lim == insize)
    requires insize == 0 ==> nul < lim && s[nul] == 0
    requires out != null ==> 0 < outsize <= out.Length
    modifies out
    ensures total == Outcome(CandidatesIn(s, lim, 0, flags), flags, out != null, outsize)
    ensures out != null ==> total <= outsize
    ensures out != null && total != 0 ==> out[..total] == Kept(CandidatesIn(s, lim, 0, flags).value, flags)
    ensures out != null ==> out[outsize..] == old(out[outsize..])
  {
    var p := 0;
    var o := 0;  // the write position: out minus the out passed in
    total := 0;
    ghost var done: seq<wchar> := [];
    DecodedNothing(s, lim, flags);
    while p < lim
      invariant insize == 0 ==> p <= nul
      invariant DecodedUpTo(s, lim, p, done, flags)
      invariant Emitted(done, out, o, total, outsize, flags)
      invariant out != null ==> out[outsize..] == old(out[outsize..])
      decreases lim - p
    {
      if s[p] == 0 {
        break;
      }
      var step := ReadSequence(s, p, lim, insize, flags, nul);
      if step == Reject {
        return 0;
      }
      if step == Skip {
        SkippedAt(s, lim, p, done, flags);
        p := p + 1;
        continue;
      }
      var n := step.n;
      AcceptedAt(s, lim, p, n, done, flags);
      var ok;
      ok, o, total := Emit(s, p, n, step.high, out, o, total, outsize, flags, done);
      if !ok {
        NoStore(CandidatesIn(s, lim, 0, flags), done + [Assemble(s[p..p + n], n)], CandidatesIn(s, lim, p + n, flags),
                flags, outsize);
        return 0;
      }
      done := done + [Assemble(s[p..p + n], n)];
      p := p + n;
    }
    DecodedAll(s, lim, p, done, flags);
    if out != null {
      StoreIsKept(done, flags, outsize, 0);
    }
  }

  /**
   * The count and what has been written after the characters `done` were
   * assembled: in count-only mode `total` counts them all, in write mode the
   * stored ones are out[..o] and `total` is `o`.
   */
  ghost predicate Emitted(done: seq<wchar>, out: array?<wchar>, o: nat, total: nat, outsize: nat, flags: Flags)
    reads out
  {
    if out == null then total == |done|
    else o == total <= outsize <= out.Length && Store(done, flags, outsize, 0) == Some(out[..o])
  }

  /**
   * After a well-formed `n`-byte sequence at `s[p]`: count it, and in write
   * mode store it (see `Put`). `ok` is false where the decoder returns 0.
   */
  method Emit(s: seq<byte>, p: nat, n: nat, high: wchar, out: array?<wchar>, o: nat, total: nat, outsize: nat,
              flags: Flags, ghost done: seq<wchar>)
    returns (ok: bool, o': nat, total': nat)
    requires 1 <= n <= 6 && p + n <= |s| && high == HighBits(s[p])
    requires Emitted(done, out, o, total, outsize, flags)
    modifies out
    ensures ok ==> Emitted(done + [Assemble(s[p..p + n], n)], out, o', total', outsize, flags)
    ensures !ok ==> out != null && Store(done + [Assemble(s[p..p + n], n)], flags, outsize, 0) == None
    ensures out != null ==> out[outsize..] == old(out[outsize..])
  {
    total' := total + 1;
    o' := o;
    ok := true;
    if out != null {
      var kept;
      ok, kept := Put(s, p, n, high, out, o, outsize, flags, done);
      if ok && kept {
        o' := o + 1;
      } else {
        total' := total;  // the cell is taken back
      }
    }
  }

  /**
   * Write mode, after the well-formed `n`-byte sequence at `s[p]`: the room
   * check, the value loop into out[o], then the surrogate and byte-order-mark
   * checks, which may take the cell back. `ok` is false where the decoder
   * returns 0; `kept` says whether the cell stays written.
   */
  method Put(s: seq<byte>, p: nat, n: nat, high: wchar, out: array<wchar>, o: nat, outsize: nat, flags: Flags,
             ghost done: seq<wchar>)
    returns (ok: bool, kept: bool)
    requires 1 <= n <= 6 && p + n <= |s| && high == HighBits(s[p])
    requires o <= outsize <= out.Length && Store(done, flags, outsize, 0) == Some(out[..o])
    modifies out
    ensures ok <==> Store(done + [Assemble(s[p..p + n], n)], flags, outsize, 0).Some?
    ensures ok ==> o + (if kept then 1 else 0) <= outsize
    ensures ok ==>
      Store(done + [Assemble(s[p..p + n], n)], flags, outsize, 0) == Some(out[..if kept then o + 1 else o])
    ensures out[outsize..] == old(out[outsize..])
  {
    ghost var b := s[p..p + n];
    ghost var stored := out[..o];
    StoreAppend(done, [Assemble(b, n)], flags, outsize, 0);
    StoreOne(Assemble(b, n), flags, outsize, o);
    if o >= outsize {
      return false, false;  // no space left
    }
    assert b[0] == s[p];
    var v := AssembleAt(s[p..p + n], n, high);
    out[o] := v;
    assert out[..o] == stored;
    if WcharForbidden(v) {
      if !flags.ignoreError {
        return false, false;  // forbidden character
      }
      assert stored + [] == stored;
      return true, false;
    } else if v == Bom && flags.skipBom {
      assert stored + [] == stored;
      return true, false;
    }
    assert out[..o + 1] == stored + [v];
    return true, true;
  }

  /** What the checks at the head of the decoding loop decide about the bytes at the read position. */
  datatype Step = Reject | Skip | Accept(n: nat, high: wchar)

  /**
   * The checks at the head of the decoding loop, for a non-NUL byte at `p`:
   * a forbidden lead byte, the lead byte's class (giving `n` and `high`), a
   * sequence cut short by `insize`, and the continuation bytes. Each failure
   * rejects the input, or under the ignore flag skips one byte.
   */
  method ReadSequence(s: seq<byte>, p: nat, lim: nat, insize: nat, flags: Flags, ghost nul: nat)
    returns (step: Step)
    requires p < lim <= |s| && s[p] != 0
    requires insize != 0 ==> lim == insize
    requires insize == 0 ==> p <= nul < lim && s[nul] == 0
    ensures step == Reject ==> CandidatesIn(s, lim, p, flags) == None
    ensures step == Skip ==>
      flags.ignoreError && (SequenceLength(s[p]) == 0 || !ContinuationsIn(s, lim, p, SequenceLength(s[p])))
    ensures step.Accept? ==>
      (flags.ignoreError || !Utf8Forbidden(s[p]))
      && step.n == SequenceLength(s[p]) && 1 <= step.n <= 6 && ContinuationsIn(s, lim, p, step.n)
      && step.high == HighBits(s[p])
    ensures insize == 0 && step == Skip ==> p < nul
    ensures insize == 0 && step.Accept? ==> p + step.n <= nul
  {
    if Utf8Forbidden(s[p]) && !flags.ignoreError {
      return Reject;
    }
    var n, high := LeadClass(s[p]);
    if n == 0 {
      return if flags.ignoreError then Skip else Reject;
    }
    // does the sequence header tell the truth about the length?
    if insize != 0 && insize - p <= n - 1 {
      return if flags.ignoreError then Skip else Reject;
    }
    var ok := ContinuationsAt(s, p, n, lim, insize == 0, nul);
    if !ok {
      return if flags.ignoreError then Skip else Reject;
    }
    return Accept(n, high);
  }

  /**
   * The decoder's classification of a lead byte by its top bits: the length
   * `n` of the sequence it starts and its payload `high`; `n` is 0 for a byte
   * that starts no sequence.
   */
  method LeadClass(lead: byte) returns (n: nat, high: wchar)
    ensures n == SequenceLength(lead)
    ensures n != 0 ==> high == HighBits(lead)
  {
    n, high := 1, 0;
    if lead & 0x80 == 0 {
      high := lead as wchar;
    } else if lead & 0xe0 == Seq2 {
      n, high := 2, (lead & 0x1f) as wchar;
    } else if lead & 0xf0 == Seq3 {
      n, high := 3, (lead & 0x0f) as wchar;
    } else if lead & 0xf8 == Seq4 {
      n, high := 4, (lead & 0x07) as wchar;
    } else if lead & 0xfc == Seq5 {
      n, high := 5, (lead & 0x03) as wchar;
    } else if lead & 0xfe == Seq6 {
      n, high := 6, (lead & 0x01) as wchar;
    } else {
      n := 0;
    }
  }

  /**
   * The decoder's check that bytes 1..n-1 of the sequence at `p` are
   * continuation bytes, stopping at the first that is not. When the input is
   * NUL-terminated (`toNul`) the NUL at `nul` stops the check before the end.
   */
  method ContinuationsAt(s: seq<byte>, p: nat, n: nat, lim: nat, toNul: bool, ghost nul: nat) returns (ok: bool)
    requires 1 <= n <= 6 && p < lim <= |s| && s[p] != 0
    requires !toNul ==> p + n <= lim
    requires toNul ==> p <= nul < lim && s[nul] == 0
    ensures ok <==> ContinuationsIn(s, lim, p, n)
    ensures toNul && ok ==> p + n <= nul
  {
    if n == 1 {
      return true;
    }
    var i := 1;
    while i < n
      invariant 1 <= i <= n
      invariant toNul ==> p + i <= nul
      invariant forall j :: p + 1 <= j < p + i ==> s[j] & 0xc0 == 0x80
      decreases n - i
    {
      if s[p + i] & 0xc0 != Nxt {
        break;
      }
      i := i + 1;
    }
    ok := i == n;
  }

  /**
   * The decoder's value loop for the `n`-byte sequence at `s[p]`: the
   * continuation bytes from the last one backwards, each shifted by `n_bits`,
   * which grows by 6, then the lead byte's payload on top.
   */
  method AssembleAt(b: seq<byte>, n: nat, high: wchar) returns (v: wchar)
    requires 1 <= n <= 6 && n == |b| && high == HighBits(b[0])
    ensures v == Assemble(b, n)
  {
    assert b[..n] == b;
    ghost var target := Gather(b, n, 1, 0);
    v := 0;
    var nBits: bv8 := 0;
    var i := 1;
    while i < n
      invariant 1 <= i <= n
      invariant nBits == NBits(i)
      invariant Gather(b, n, i, v) == target
      decreases n - i
    {
      var c := b[n - i];
      GatherStep(b, n, i, v);
      v := OrShifted(v, (c & 0x3f) as wchar, nBits, i);
      NBitsNext(i);
      nBits := nBits + 6;  // 6 low bits in every byte
      i := i + 1;
    }
    assert i == n;
    GatherLast(b, n, v, high);
    v := OrShifted(v, high, nBits, n);
  }

  /** The value of `n_bits` in iteration `i` of the value loop: 6 * (i - 1). */
  function NBits(i: nat): (b: bv8)
    requires 1 <= i <= 6
  {
    if i == 1 then 0 else if i == 2 then 6 else if i == 3 then 12
    else if i == 4 then 18 else if i == 5 then 24 else 30
  }

  lemma NBitsNext(i: nat)
    requires 1 <= i < 6
    ensures NBits(i + 1) == NBits(i) + 6
  {
  }

  /** One `|=` of the value loop: `x` shifted by `n_bits`, which is 6 * (i - 1) in iteration `i`. */
  method OrShifted(v: wchar, x: wchar, nBits: bv8, ghost i: nat) returns (r: wchar)
    requires 1 <= i <= 6 && nBits == NBits(i)
    ensures r == v | Shl(x, i)
  {
    r := v | (x << nBits);
  }

  /** Storing one code point into a buffer with `k` cells used. */
  lemma StoreOne(v: wchar, flags: Flags, outsize: nat, k: nat)
    ensures Store([v], flags, outsize, k) ==
      if k >= outsize then None
      else if WcharForbidden(v) then (if flags.ignoreError then Some([]) else None)
      else if v == Bom && flags.skipBom then Some([])
      else Some([v])
  {
    assert [v][1..] == [];
    assert [v] + [] == [v];
  }

  /** A prefix of the candidates that cannot be stored makes write mode return 0. */
  lemma NoStore(all: Option<seq<wchar>>, c: seq<wchar>, more: Option<seq<wchar>>, flags: Flags, outsize: nat)
    requires all == Prefixed(c, more)
    requires Store(c, flags, outsize, 0) == None
    ensures Outcome(all, flags, true, outsize) == 0
  {
    match more
    case None =>
    case Some(m) => StoreAppend(c, m, flags, outsize, 0);
  }
}
