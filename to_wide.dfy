/**
 * os_utf8_to_wcs and the two to_wide overloads of deps/wide-string.cpp: a
 * NUL-terminated conversion into a caller's buffer of `dst_size` wide
 * characters, and the conversion of a whole string into a new wide string, by
 * counting first and converting into a buffer of that size second. Both use
 * the decoder with no flags.
 */
module ToWide {
  import opened Wrappers
  import opened Utf8
  import opened Utf8Laws
  import opened WideString

  /** strlen: the index of the first NUL byte. */
  method StrLen(s: seq<byte>) returns (n: nat)
    requires exists j :: 0 <= j < |s| && s[j] == 0
    ensures n < |s| && s[n] == 0
    ensures forall j :: 0 <= j < n ==> s[j] != 0
  {
    n := 0;
    while s[n] != 0
      invariant exists j :: n <= j < |s| && s[j] == 0
      invariant forall j :: 0 <= j < n ==> s[j] != 0
      decreases |s| - n
    {
      n := n + 1;
    }
  }

  /**
   * The length os_utf8_to_wcs returns for a buffer of `dstSize` > 0 cells:
   * no conversion into a buffer of one cell, otherwise the decoder's result in
   * write mode with room for `dstSize - 1` characters, leaving a cell for the
   * terminator.
   */
  function WcsLength(s: seq<byte>, len: nat, dstSize: nat): nat
    requires len <= |s| && dstSize > 0
  {
    if dstSize == 1 then 0 else DecodeResult(Readable(s, len), NoFlags, true, dstSize - 1)
  }

  /** The same length as the source computes it: the decoder is given room for `dstSize` characters. */
  function WcsLengthAsWritten(s: seq<byte>, len: nat, dstSize: nat): nat
    requires len <= |s| && dstSize > 0
  {
    if dstSize == 1 then 0 else DecodeResult(Readable(s, len), NoFlags, true, dstSize)
  }

  /** The terminator os_utf8_to_wcs writes at dst[WcsLength(..)] lies inside the buffer. */
  lemma TerminatorInBuffer(s: seq<byte>, len: nat, dstSize: nat)
    requires len <= |s| && dstSize > 0
    ensures WcsLength(s, len, dstSize) < dstSize
  {
    if dstSize > 1 {
      DecodeResultBound(Readable(s, len), NoFlags, dstSize - 1);
    }
  }

  /**
   * As written, the terminator can land one cell past the buffer: the two
   * characters of "ab" fill a buffer of two cells, and dst[2] is written.
   */
  lemma TerminatorPastBuffer()
    ensures WcsLengthAsWritten([0x61, 0x62, 0], 2, 2) == 2
  {
    var s: seq<byte> := [0x61, 0x62];
    var t: seq<byte> := [0x62];
    assert Readable([0x61, 0x62, 0], 2) == s;
    assert s[1..] == t && t[1..] == [];
    assert Candidates(t[1..], NoFlags) == Some([]);
    assert Assemble(t, 1) == 0x62 && Assemble(s, 1) == 0x61;
    assert SequenceLength(t[0]) == 1 && ContinuationsOk(t, 1);
    assert Candidates(t, NoFlags) == Prefixed([Assemble(t, 1)], Candidates(t[1..], NoFlags));
    assert [Assemble(t, 1)] + [] == [0x62];
    assert SequenceLength(s[0]) == 1 && ContinuationsOk(s, 1);
    assert Candidates(s, NoFlags) == Prefixed([Assemble(s, 1)], Candidates(s[1..], NoFlags));
    assert [Assemble(s, 1)] + [0x62] == [0x61, 0x62];
    assert [0x61, 0x62][1..] == [0x62];
    assert Store([0x61, 0x62], NoFlags, 2, 0) == Some([0x61, 0x62]);
  }

  /**
   * The decoder reads the same characters whether its input is bounded by
   * `len` or, with `len` 0, by strlen; both stop at the NUL.
   */
  lemma BoundedByStrLen(s: seq<byte>, k: nat)
    requires k < |s| && s[k] == 0
    requires forall j :: 0 <= j < k ==> s[j] != 0
    ensures Candidates(Readable(s, k), NoFlags) == Candidates(Readable(s, 0), NoFlags)
  {
    if k != 0 {
      StopsAtNul(s, k, NoFlags);
    }
  }

  /** `len`, or with `len` 0 the strlen of `s`: the decoder reads the same characters either way. */
  method InputLength(s: seq<byte>, len: nat) returns (inLen: nat)
    requires len <= |s|
    requires len == 0 ==> exists j :: 0 <= j < |s| && s[j] == 0
    ensures inLen <= |s| && (inLen == 0 ==> len == 0)
    ensures Candidates(Readable(s, inLen), NoFlags) == Candidates(Readable(s, len), NoFlags)
  {
    inLen := len;
    if len == 0 {
      inLen := StrLen(s);
      BoundedByStrLen(s, inLen);
    }
  }

  /**
   * os_utf8_to_wcs, with the decoder given room for `dst_size - 1` characters
   * so that the terminator fits. `str` is the memory at `str` (None for a null
   * pointer); with `len` 0 it is read up to its NUL. Without a buffer the
   * result is the decoder's count; with one it is the number of characters
   * converted, followed by a 0 character.
   */
  method OsUtf8ToWcs(str: Option<seq<byte>>, len: nat, dst: array?<wchar>, dstSize: nat) returns (outLen: nat)
    requires str.Some? ==> len <= |str.value|
    requires str.Some? && len == 0 ==> exists j :: 0 <= j < |str.value| && str.value[j] == 0
    requires dst != null ==> dstSize <= dst.Length
    modifies dst
    ensures str.None? || (dst != null && dstSize == 0) ==> outLen == 0
    ensures str.Some? && dst == null ==> outLen == DecodeResult(Readable(str.value, len), NoFlags, false, 0)
    ensures str.Some? && dst != null && dstSize > 0 ==>
      outLen == WcsLength(str.value, len, dstSize) && outLen < dstSize && dst[outLen] == 0
      && (outLen != 0 ==> dst[..outLen] == Candidates(Readable(str.value, len), NoFlags).value)
    ensures dst != null ==> dst[dstSize..] == old(dst[dstSize..])
  {
    if str.None? {
      return 0;
    }
    var s := str.value;
    var inLen := InputLength(s, len);
    if dst == null {
      outLen := Utf8ToWchar(str, inLen, null, 0, NoFlags);
      return;
    }
    if dstSize == 0 {
      return 0;
    }
    outLen := dstSize - 1;
    if outLen != 0 {
      outLen := Utf8ToWchar(str, inLen, dst, outLen, NoFlags);
      if outLen != 0 {
        CountMatchesWrite(Readable(s, len), dstSize - 1);
        assert dst[..outLen] == Candidates(Readable(s, len), NoFlags).value;
      }
    }
    TerminatorInBuffer(s, len, dstSize);
    ghost var converted := dst[..outLen];
    dst[outLen] := 0;
    assert dst[..outLen] == converted;
  }

  /**
   * os_utf8_to_wcs as written: the decoder is given room for `dst_size`
   * characters, and when it fills them the terminator goes to dst[dst_size],
   * so the buffer needs a cell past `dst_size` whenever the input fills it.
   */
  method OsUtf8ToWcsAsWritten(str: Option<seq<byte>>, len: nat, dst: array?<wchar>, dstSize: nat)
    returns (outLen: nat)
    requires str.Some? ==> len <= |str.value|
    requires str.Some? && len == 0 ==> exists j :: 0 <= j < |str.value| && str.value[j] == 0
    requires dst != null ==> dstSize <= dst.Length
    requires str.Some? && dst != null && dstSize > 0 ==> WcsLengthAsWritten(str.value, len, dstSize) < dst.Length
    modifies dst
    ensures str.None? || (dst != null && dstSize == 0) ==> outLen == 0
    ensures str.Some? && dst == null ==> outLen == DecodeResult(Readable(str.value, len), NoFlags, false, 0)
    ensures str.Some? && dst != null && dstSize > 0 ==>
      outLen == WcsLengthAsWritten(str.value, len, dstSize) && outLen <= dstSize && dst[outLen] == 0
      && (outLen != 0 ==> dst[..outLen] == Candidates(Readable(str.value, len), NoFlags).value)
  {
    if str.None? {
      return 0;
    }
    var s := str.value;
    var inLen := InputLength(s, len);
    if dst == null {
      outLen := Utf8ToWchar(str, inLen, null, 0, NoFlags);
      return;
    }
    if dstSize == 0 {
      return 0;
    }
    outLen := dstSize - 1;
    if outLen != 0 {
      outLen := Utf8ToWchar(str, inLen, dst, outLen + 1, NoFlags);
      if outLen != 0 {
        CountMatchesWrite(Readable(s, len), dstSize);
        assert dst[..outLen] == Candidates(Readable(s, len), NoFlags).value;
      }
    }
    ghost var converted := dst[..outLen];
    dst[outLen] := 0;
    assert dst[..outLen] == converted;
  }

  /** With no flags, a spare cell past the count changes nothing: write mode fails only on a surrogate. */
  lemma StoreOneSpare(c: seq<wchar>)
    ensures Store(c, NoFlags, |c| + 1, 0).Some? <==> Store(c, NoFlags, |c|, 0).Some?
  {
    if forall i :: 0 <= i < |c| ==> !WcharForbidden(c[i]) {
      StoreRoom(c, |c|, 0);
      StoreRoom(c, |c| + 1, 0);
    } else {
      var i :| 0 <= i < |c| && WcharForbidden(c[i]);
      StoreRejectsSurrogate(c, NoFlags, |c|, 0, i);
      StoreRejectsSurrogate(c, NoFlags, |c| + 1, 0, i);
    }
  }

  /**
   * At the size to_wide passes, the counted length plus one, the wrapper as
   * written and the corrected one return the same length: the terminator of
   * the as-written one then lands at dst[count], inside the buffer.
   */
  lemma WrappersAgreeAtCountPlusOne(s: seq<byte>, len: nat)
    requires len <= |s|
    ensures var count := DecodeResult(Readable(s, len), NoFlags, false, 0);
      && WcsLengthAsWritten(s, len, count + 1) == WcsLength(s, len, count + 1)
      && WcsLengthAsWritten(s, len, count + 1) <= count
  {
    var r := Readable(s, len);
    var count := DecodeResult(r, NoFlags, false, 0);
    if count > 0 {
      var c := Candidates(r, NoFlags).value;
      StoreOneSpare(c);
      StoreNoFlags(c, count);
      StoreNoFlags(c, count + 1);
    }
  }

  /**
   * The result of to_wide for input whose bytes, as the decoder reads them,
   * are `bytes`: empty when they are rejected or give nothing; the characters
   * when they all convert; and when the count succeeds but the conversion
   * does not (an encoded surrogate), a string of the counted length whose
   * first character is 0.
   */
  ghost predicate ToWideOf(bytes: seq<byte>, wide: seq<wchar>) {
    match Candidates(bytes, NoFlags)
    case None => wide == []
    case Some(c) =>
      if |c| == 0 then wide == []
      else if Store(c, NoFlags, |c|, 0).Some? then wide == c
      else |wide| == |c| && wide[0] == 0
  }

  /**
   * The conversion shared by both overloads once the input is known to be
   * non-empty: count with os_utf8_to_wcs, then convert into a zero-filled
   * string of that size (with its terminator cell), passing the count plus
   * one as the size. At that size the wrapper as written puts its terminator
   * in the string's own terminator cell. The decoder reads `bytes`.
   */
  method Convert(mem: seq<byte>, isize: nat, ghost bytes: seq<byte>) returns (wide: seq<wchar>)
    requires 0 < isize <= |mem|
    requires Candidates(Readable(mem, isize), NoFlags) == Candidates(bytes, NoFlags)
    ensures ToWideOf(bytes, wide)
  {
    var osize := OsUtf8ToWcsAsWritten(Some(mem), isize, null, 0);
    if osize == 0 {
      return [];
    }
    var buf := new wchar[osize + 1](_ => 0);
    WrappersAgreeAtCountPlusOne(mem, isize);
    var written := OsUtf8ToWcsAsWritten(Some(mem), isize, buf, osize + 1);
    wide := buf[..osize];
    var c := Candidates(Readable(mem, isize), NoFlags).value;
    StoreOneSpare(c);
    StoreNoFlags(c, osize + 1);
    if written == 0 {
      assert wide[0] == buf[0];
    }
  }

  /**
   * The result to_wide is meant to have: the decoded characters when they all
   * convert, and an empty string otherwise.
   */
  ghost predicate ToWideIntended(bytes: seq<byte>, wide: seq<wchar>) {
    match Candidates(bytes, NoFlags)
    case None => wide == []
    case Some(c) => if Store(c, NoFlags, |c|, 0).Some? then wide == c else wide == []
  }

  /**
   * The source's result and the intended one agree except when the count
   * succeeds and the conversion does not; then the source's result is a
   * non-empty string starting with a 0 character, where an empty one is meant.
   */
  lemma ToWideOfVersusIntended(bytes: seq<byte>, wide: seq<wchar>, meant: seq<wchar>)
    requires ToWideOf(bytes, wide) && ToWideIntended(bytes, meant)
    ensures wide == meant || (|wide| > 0 && wide[0] == 0 && meant == [])
    ensures wide != meant <==>
      Candidates(bytes, NoFlags).Some? && |Candidates(bytes, NoFlags).value| > 0
      && Store(Candidates(bytes, NoFlags).value, NoFlags, |Candidates(bytes, NoFlags).value|, 0).None?
  {
  }

  /** The three bytes ED A0 80 encode U+D800, a surrogate, which the decoder assembles but cannot store. */
  lemma EncodedSurrogate()
    ensures Candidates([0xED, 0xA0, 0x80], NoFlags) == Some([0xD800])
    ensures Store([0xD800], NoFlags, 1, 0).None?
  {
    var s: seq<byte> := [0xED, 0xA0, 0x80];
    assert SequenceLength(s[0]) == 3 && ContinuationsOk(s, 3);
    assert Assemble(s, 3) == 0xD800;
    assert s[3..] == [] && Candidates(s[3..], NoFlags) == Some([]);
    assert Candidates(s, NoFlags) == Prefixed([Assemble(s, 3)], Candidates(s[3..], NoFlags));
    assert [Assemble(s, 3)] + [] == [0xD800];
  }

  /**
   * to_wide as written on the encoded surrogate: the count is 1 and the
   * conversion fails, so the result is one 0 character rather than an empty
   * string.
   */
  method EncodedSurrogateAsWritten() returns (wide: seq<wchar>)
    ensures wide == [0]
  {
    EncodedSurrogate();
    wide := ToWideString([0xED, 0xA0, 0x80]);
  }

  /**
   * The shared conversion with the conversion's result checked: when it
   * converts nothing the string is empty.
   */
  method ConvertChecked(mem: seq<byte>, isize: nat, ghost bytes: seq<byte>) returns (wide: seq<wchar>)
    requires 0 < isize <= |mem|
    requires Candidates(Readable(mem, isize), NoFlags) == Candidates(bytes, NoFlags)
    ensures ToWideIntended(bytes, wide)
  {
    var osize := OsUtf8ToWcsAsWritten(Some(mem), isize, null, 0);
    if osize == 0 {
      return [];
    }
    var buf := new wchar[osize + 1](_ => 0);
    WrappersAgreeAtCountPlusOne(mem, isize);
    var written := OsUtf8ToWcsAsWritten(Some(mem), isize, buf, osize + 1);
    if written == 0 {
      wide := [];
    } else {
      wide := buf[..osize];
    }
    var c := Candidates(Readable(mem, isize), NoFlags).value;
    StoreOneSpare(c);
    StoreNoFlags(c, osize + 1);
  }

  /** to_wide(const char *) with the conversion checked. */
  method ToWideCStrChecked(utf8: Option<seq<byte>>) returns (wide: seq<wchar>)
    requires utf8.Some? ==> exists j :: 0 <= j < |utf8.value| && utf8.value[j] == 0
    ensures utf8.None? ==> wide == []
    ensures utf8.Some? ==> ToWideIntended(utf8.value, wide)
  {
    if utf8.None? || utf8.value[0] == 0 {
      return [];
    }
    var mem := utf8.value;
    var isize := StrLen(mem);
    BoundedByStrLen(mem, isize);
    wide := ConvertChecked(mem, isize, mem);
  }

  /** to_wide(const std::string &) with the conversion checked. */
  method ToWideStringChecked(utf8: seq<byte>) returns (wide: seq<wchar>)
    ensures ToWideIntended(utf8, wide)
  {
    if |utf8| == 0 {
      return [];
    }
    var mem := utf8 + [0];  // c_str()
    assert Readable(mem, |utf8|) == utf8;
    wide := ConvertChecked(mem, |utf8|, utf8);
  }

  /** With the conversion checked, the encoded surrogate gives an empty string. */
  method EncodedSurrogateChecked() returns (wide: seq<wchar>)
    ensures wide == []
  {
    EncodedSurrogate();
    wide := ToWideStringChecked([0xED, 0xA0, 0x80]);
  }

  /** to_wide(const char *): empty for a null or empty string; the bytes up to the NUL are converted. */
  method ToWideCStr(utf8: Option<seq<byte>>) returns (wide: seq<wchar>)
    requires utf8.Some? ==> exists j :: 0 <= j < |utf8.value| && utf8.value[j] == 0
    ensures utf8.None? ==> wide == []
    ensures utf8.Some? ==> ToWideOf(utf8.value, wide)
  {
    if utf8.None? || utf8.value[0] == 0 {
      return [];
    }
    var mem := utf8.value;
    var isize := StrLen(mem);
    BoundedByStrLen(mem, isize);
    wide := Convert(mem, isize, mem);
  }

  /**
   * to_wide(const std::string &): empty for an empty string; the string's
   * bytes are converted (up to an embedded NUL, if any).
   */
  method ToWideString(utf8: seq<byte>) returns (wide: seq<wchar>)
    ensures ToWideOf(utf8, wide)
  {
    if |utf8| == 0 {
      return [];
    }
    var mem := utf8 + [0];  // c_str()
    assert Readable(mem, |utf8|) == utf8;
    wide := Convert(mem, |utf8|, utf8);
  }
}
