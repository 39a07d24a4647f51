/**
 * Little-endian integer layouts as produced by memcpy on x86 (client) and by
 * BitConverter (server): int16, int32, uint32 (float bit patterns) and uint64.
 */
module Bytes {
  type byte = b: int | 0 <= b < 256

  /** A 32-bit float carried as its bit pattern; the model never does float arithmetic on the wire. */
  type Float32 = u: int | 0 <= u < 0x1_0000_0000

  predicate IsInt16(v: int) { -0x8000 <= v < 0x8000 }
  predicate IsInt32(v: int) { -0x8000_0000 <= v < 0x8000_0000 }
  predicate IsUInt64(v: int) { 0 <= v < 0x1_0000_0000_0000_0000 }

  /** A bool as one byte, 1 or 0 (BitConverter.GetBytes(bool), memcpy of a C++ bool). */
  function BoolByte(b: bool): (r: byte)
    ensures r != 0 <==> b
  {
    if b then 1 else 0
  }

  /** 256 to the n: the number of values n bytes can hold. */
  function Pow256(n: nat): (p: nat)
    ensures p >= 1
    ensures n > 0 ==> p >= 256 * n
  {
    if n == 0 then 1 else 256 * Pow256(n - 1)
  }

  /** The n low-order bytes of u, least significant first: what memcpy of an x86 integer produces. */
  function LE(u: nat, n: nat): (r: seq<byte>)
    ensures |r| == n
  {
    if n == 0 then [] else [u % 256] + LE(u / 256, n - 1)
  }

  /**
   * The unsigned value of the little-endian bytes buf[at..end]. Recursing on
   * the start index rather than a count keeps the solver from unrolling every
   * fixed-width read in full.
   */
  function Unsigned(buf: seq<byte>, at: nat, end: nat): nat
    requires at <= end <= |buf|
    decreases end - at
  {
    if at == end then 0 else buf[at] + 256 * Unsigned(buf, at + 1, end)
  }

  lemma {:induction false} UnsignedBound(buf: seq<byte>, at: nat, end: nat)
    requires at <= end <= |buf|
    ensures Unsigned(buf, at, end) < Pow256(end - at)
    decreases end - at
  {
    if at < end {
      UnsignedBound(buf, at + 1, end);
    }
  }

  /** Bytes laid out by LE read back as the value they encode. */
  lemma {:induction false} UnsignedOfLE(buf: seq<byte>, at: nat, end: nat, u: nat)
    requires at <= end <= |buf| && u < Pow256(end - at)
    requires buf[at..end] == LE(u, end - at)
    ensures Unsigned(buf, at, end) == u
    decreases end - at
  {
    if at < end {
      assert buf[at] == LE(u, end - at)[0];
      assert buf[at + 1..end] == buf[at..end][1..];
      UnsignedOfLE(buf, at + 1, end, u / 256);
    }
  }

  /** Any bytes are the LE layout of the value read from them. */
  lemma {:induction false} LEOfUnsigned(buf: seq<byte>, at: nat, end: nat)
    requires at <= end <= |buf|
    ensures LE(Unsigned(buf, at, end), end - at) == buf[at..end]
    decreases end - at
  {
    if at < end {
      LEOfUnsigned(buf, at + 1, end);
      var u := Unsigned(buf, at, end);
      assert u % 256 == buf[at];
      assert u / 256 == Unsigned(buf, at + 1, end);
      assert buf[at..end] == [buf[at]] + buf[at + 1..end];
    }
  }

  /** Zero bytes read as zero. */
  lemma {:induction false} UnsignedZeros(buf: seq<byte>, at: nat, end: nat)
    requires at <= end <= |buf|
    requires forall k :: at <= k < end ==> buf[k] == 0
    ensures Unsigned(buf, at, end) == 0
    decreases end - at
  {
    if at < end {
      UnsignedZeros(buf, at + 1, end);
    }
  }

  // ---- signed and unsigned fixed-width integers ----

  function EncodeInt16(v: int): (r: seq<byte>)
    requires IsInt16(v)
    ensures |r| == 2
  {
    LE(if v < 0 then v + 0x1_0000 else v, 2)
  }

  function EncodeInt32(v: int): (r: seq<byte>)
    requires IsInt32(v)
    ensures |r| == 4
  {
    LE(if v < 0 then v + 0x1_0000_0000 else v, 4)
  }

  function EncodeFloat(f: Float32): (r: seq<byte>)
    ensures |r| == 4
  {
    LE(f, 4)
  }

  function EncodeUInt64(v: int): (r: seq<byte>)
    requires IsUInt64(v)
    ensures |r| == 8
  {
    LE(v, 8)
  }

  // ---- reading at a cursor, as BitConverter and pointer casts do ----

  function ReadInt16(buf: seq<byte>, at: nat): int
    requires at + 2 <= |buf|
  {
    var u := Unsigned(buf, at, at + 2);
    if u >= 0x8000 then u - 0x1_0000 else u
  }

  function ReadInt32(buf: seq<byte>, at: nat): int
    requires at + 4 <= |buf|
  {
    var u := Unsigned(buf, at, at + 4);
    if u >= 0x8000_0000 then u - 0x1_0000_0000 else u
  }

  function ReadFloat(buf: seq<byte>, at: nat): Float32
    requires at + 4 <= |buf|
  {
    UnsignedBound(buf, at, at + 4);
    assert at + 4 - at == 4;
    assert Pow256(4) == 0x1_0000_0000;
    Unsigned(buf, at, at + 4)
  }

  function ReadUInt64(buf: seq<byte>, at: nat): int
    requires at + 8 <= |buf|
  {
    Unsigned(buf, at, at + 8)
  }

  lemma {:induction false} ReadInt16Of(buf: seq<byte>, at: nat, v: int)
    requires IsInt16(v) && at + 2 <= |buf| && buf[at..at + 2] == EncodeInt16(v)
    ensures ReadInt16(buf, at) == v
  {
    UnsignedOfLE(buf, at, at + 2, if v < 0 then v + 0x1_0000 else v);
  }

  lemma {:induction false} ReadInt32Of(buf: seq<byte>, at: nat, v: int)
    requires IsInt32(v) && at + 4 <= |buf| && buf[at..at + 4] == EncodeInt32(v)
    ensures ReadInt32(buf, at) == v
  {
    UnsignedOfLE(buf, at, at + 4, if v < 0 then v + 0x1_0000_0000 else v);
  }

  lemma {:induction false} ReadFloatOf(buf: seq<byte>, at: nat, f: Float32)
    requires at + 4 <= |buf| && buf[at..at + 4] == EncodeFloat(f)
    ensures ReadFloat(buf, at) == f
  {
    UnsignedOfLE(buf, at, at + 4, f);
  }

  lemma {:induction false} ReadUInt64Of(buf: seq<byte>, at: nat, v: int)
    requires IsUInt64(v) && at + 8 <= |buf| && buf[at..at + 8] == EncodeUInt64(v)
    ensures ReadUInt64(buf, at) == v
  {
    UnsignedOfLE(buf, at, at + 8, v);
  }

  /** An int32 whose four bytes are found one by one at `at` reads back. */
  lemma {:induction false} ReadInt32At(buf: seq<byte>, at: nat, v: int)
    requires IsInt32(v) && at + 4 <= |buf|
    requires var e := EncodeInt32(v); buf[at] == e[0] && buf[at + 1] == e[1] && buf[at + 2] == e[2] && buf[at + 3] == e[3]
    ensures ReadInt32(buf, at) == v
  {
    assert buf[at..at + 4] == EncodeInt32(v);
    ReadInt32Of(buf, at, v);
  }

  /** A float whose four bytes are found one by one at `at` reads back. */
  lemma {:induction false} ReadFloatAt(buf: seq<byte>, at: nat, f: Float32)
    requires at + 4 <= |buf|
    requires var e := EncodeFloat(f); buf[at] == e[0] && buf[at + 1] == e[1] && buf[at + 2] == e[2] && buf[at + 3] == e[3]
    ensures ReadFloat(buf, at) == f
  {
    assert buf[at..at + 4] == EncodeFloat(f);
    ReadFloatOf(buf, at, f);
  }

  /** An int32 at the front of a buffer reads back. */
  lemma {:induction false} ReadInt32First(v: int, post: seq<byte>)
    requires IsInt32(v)
    ensures ReadInt32(EncodeInt32(v) + post, 0) == v
  {
    Slices2(EncodeInt32(v), post);
    ReadInt32Of(EncodeInt32(v) + post, 0, v);
  }

  /** An int32 read behind a prefix is the one read at the same place without it. */
  lemma {:induction false} ReadInt32Behind(pre: seq<byte>, buf: seq<byte>, at: nat)
    requires at + 4 <= |buf|
    ensures ReadInt32(pre + buf, |pre| + at) == ReadInt32(buf, at)
  {
    ReadInt32Range(buf, at);
    assert (pre + buf)[|pre| + at..|pre| + at + 4] == buf[at..at + 4];
    ReadInt32Of(pre + buf, |pre| + at, ReadInt32(buf, at));
  }

  /** Appending bytes does not change an int32 read before them. */
  lemma {:induction false} ReadInt32Front(buf: seq<byte>, post: seq<byte>, at: nat)
    requires at + 4 <= |buf|
    ensures ReadInt32(buf + post, at) == ReadInt32(buf, at)
  {
    ReadInt32Range(buf, at);
    assert (buf + post)[at..at + 4] == buf[at..at + 4];
    ReadInt32Of(buf + post, at, ReadInt32(buf, at));
  }

  /** An int32 appended to a buffer reads back at the buffer's old end. */
  lemma {:induction false} ReadInt32Last(buf: seq<byte>, v: int)
    requires IsInt32(v)
    ensures ReadInt32(buf + EncodeInt32(v), |buf|) == v
  {
    assert (buf + EncodeInt32(v))[|buf|..|buf| + 4] == EncodeInt32(v);
    ReadInt32Of(buf + EncodeInt32(v), |buf|, v);
  }

  /** Every 4 bytes are the encoding of the int32 read from them. */
  lemma {:induction false} ReadInt32Range(buf: seq<byte>, at: nat)
    requires at + 4 <= |buf|
    ensures IsInt32(ReadInt32(buf, at)) && EncodeInt32(ReadInt32(buf, at)) == buf[at..at + 4]
  {
    UnsignedBound(buf, at, at + 4);
    LEOfUnsigned(buf, at, at + 4);
  }

  /** Every 2 bytes are the encoding of the int16 read from them. */
  lemma {:induction false} ReadInt16Range(buf: seq<byte>, at: nat)
    requires at + 2 <= |buf|
    ensures IsInt16(ReadInt16(buf, at)) && EncodeInt16(ReadInt16(buf, at)) == buf[at..at + 2]
  {
    UnsignedBound(buf, at, at + 2);
    LEOfUnsigned(buf, at, at + 2);
  }

  lemma {:induction false} Int32RoundTrip(v: int)
    requires IsInt32(v)
    ensures ReadInt32(EncodeInt32(v), 0) == v
  {
    assert EncodeInt32(v)[0..4] == EncodeInt32(v);
    ReadInt32Of(EncodeInt32(v), 0, v);
  }

  /** The concatenated encodings of a list of floats. */
  function EncodeFloats(fs: seq<Float32>): (r: seq<byte>)
    ensures |r| == 4 * |fs|
  {
    if |fs| == 0 then [] else EncodeFloat(fs[0]) + EncodeFloats(fs[1..])
  }

  lemma {:induction false} EncodeFloatsAt(fs: seq<Float32>, k: nat)
    requires k < |fs|
    ensures EncodeFloats(fs)[4 * k..4 * k + 4] == EncodeFloat(fs[k])
  {
    if k > 0 {
      EncodeFloatsAt(fs[1..], k - 1);
      assert EncodeFloats(fs)[4 * k..4 * k + 4] == EncodeFloats(fs[1..])[4 * (k - 1)..4 * (k - 1) + 4];
    }
  }

  /** Reading k floats back from a concatenation of encodings recovers them. */
  lemma {:induction false} EncodeFloatsRoundTrip(fs: seq<Float32>, k: nat)
    requires k < |fs|
    ensures ReadFloat(EncodeFloats(fs), 4 * k) == fs[k]
  {
    EncodeFloatsAt(fs, k);
    ReadFloatOf(EncodeFloats(fs), 4 * k, fs[k]);
  }

  /** n floats read back to back from `at`. */
  function ReadFloats(buf: seq<byte>, at: nat, n: nat): (r: seq<Float32>)
    requires at + 4 * n <= |buf|
    ensures |r| == n
    decreases |buf| - at
  {
    if n == 0 then [] else [ReadFloat(buf, at)] + ReadFloats(buf, at + 4, n - 1)
  }

  /** Floats encoded back to back read back as themselves. */
  lemma {:induction false} ReadFloatsOf(buf: seq<byte>, at: nat, fs: seq<Float32>)
    requires at + 4 * |fs| <= |buf| && buf[at..at + 4 * |fs|] == EncodeFloats(fs)
    ensures ReadFloats(buf, at, |fs|) == fs
    decreases |fs|
  {
    if |fs| > 0 {
      var n := |fs|;
      Slices2(EncodeFloat(fs[0]), EncodeFloats(fs[1..]));
      SliceOfSlice(buf, at, at + 4 * n, 0, 4);
      SliceOfSlice(buf, at, at + 4 * n, 4, 4 * n);
      ReadFloatOf(buf, at, fs[0]);
      ReadFloatsOf(buf, at + 4, fs[1..]);
    }
  }

  /** The concatenated encodings of a list of int32 values. */
  function EncodeInt32s(vs: seq<int>): (r: seq<byte>)
    requires forall k :: 0 <= k < |vs| ==> IsInt32(vs[k])
    ensures |r| == 4 * |vs|
  {
    if |vs| == 0 then [] else EncodeInt32(vs[0]) + EncodeInt32s(vs[1..])
  }

  /** n int32 values read back to back from `at`: a memcpy into a vector<int>. */
  function ReadInt32s(buf: seq<byte>, at: nat, n: nat): (r: seq<int>)
    requires at + 4 * n <= |buf|
    ensures |r| == n
    decreases |buf| - at
  {
    if n == 0 then [] else [ReadInt32(buf, at)] + ReadInt32s(buf, at + 4, n - 1)
  }

  lemma {:induction false} ReadInt32sOf(buf: seq<byte>, at: nat, vs: seq<int>)
    requires forall k :: 0 <= k < |vs| ==> IsInt32(vs[k])
    requires at + 4 * |vs| <= |buf| && buf[at..at + 4 * |vs|] == EncodeInt32s(vs)
    ensures ReadInt32s(buf, at, |vs|) == vs
    decreases |vs|
  {
    if |vs| > 0 {
      var n := |vs|;
      Slices2(EncodeInt32(vs[0]), EncodeInt32s(vs[1..]));
      SliceOfSlice(buf, at, at + 4 * n, 0, 4);
      SliceOfSlice(buf, at, at + 4 * n, 4, 4 * n);
      ReadInt32Of(buf, at, vs[0]);
      ReadInt32sOf(buf, at + 4, vs[1..]);
    }
  }

  /** The concatenated encodings of a list of uint64 values. */
  function EncodeUInt64s(vs: seq<int>): (r: seq<byte>)
    requires forall k :: 0 <= k < |vs| ==> IsUInt64(vs[k])
    ensures |r| == 8 * |vs|
  {
    if |vs| == 0 then [] else EncodeUInt64(vs[0]) + EncodeUInt64s(vs[1..])
  }

  function ReadUInt64s(buf: seq<byte>, at: nat, n: nat): (r: seq<int>)
    requires at + 8 * n <= |buf|
    ensures |r| == n
    decreases n
  {
    if n == 0 then [] else [ReadUInt64(buf, at)] + ReadUInt64s(buf, at + 8, n - 1)
  }

  lemma {:induction false} ReadUInt64sOf(buf: seq<byte>, at: nat, vs: seq<int>)
    requires forall k :: 0 <= k < |vs| ==> IsUInt64(vs[k])
    requires at + 8 * |vs| <= |buf| && buf[at..at + 8 * |vs|] == EncodeUInt64s(vs)
    ensures ReadUInt64s(buf, at, |vs|) == vs
    decreases |vs|
  {
    if |vs| > 0 {
      var n := |vs|;
      Slices2(EncodeUInt64(vs[0]), EncodeUInt64s(vs[1..]));
      SliceOfSlice(buf, at, at + 8 * n, 0, 8);
      SliceOfSlice(buf, at, at + 8 * n, 8, 8 * n);
      ReadUInt64Of(buf, at, vs[0]);
      ReadUInt64sOf(buf, at + 8, vs[1..]);
    }
  }

  // ---- buffers ----

  /** n zero bytes: what a freshly sized or resized vector<char> holds. */
  function Zeros(n: nat): (r: seq<byte>)
    ensures |r| == n
  {
    seq(n, _ => 0)
  }

  /** A bytes slice placed at offset |p| reads back as itself. */
  lemma {:induction false} SliceOfConcat(p: seq<byte>, x: seq<byte>, s: seq<byte>)
    ensures (p + x + s)[|p|..|p| + |x|] == x
  {
  }

  lemma {:induction false} SliceOfSlice<T>(s: seq<T>, lo: nat, hi: nat, i: nat, j: nat)
    requires lo <= hi <= |s| && i <= j <= hi - lo
    ensures s[lo..hi][i..j] == s[lo + i..lo + j]
  {
    forall k | 0 <= k < j - i
      ensures s[lo..hi][i..j][k] == s[lo + i..lo + j][k]
    {
    }
  }

  lemma {:induction false} Slices2<T>(a: seq<T>, b: seq<T>)
    ensures (a + b)[0..|a|] == a && (a + b)[|a|..|a| + |b|] == b
  {
  }

  lemma {:induction false} Slices3<T>(a: seq<T>, b: seq<T>, c: seq<T>)
    ensures var s := a + b + c;
      s[0..|a|] == a && s[|a|..|a| + |b|] == b && s[|a| + |b|..|a| + |b| + |c|] == c
  {
  }

  lemma {:induction false} Slices4<T>(a: seq<T>, b: seq<T>, c: seq<T>, d: seq<T>)
    ensures var s := a + b + c + d;
      s[0..|a|] == a && s[|a|..|a| + |b|] == b && s[|a| + |b|..|a| + |b| + |c|] == c &&
      s[|a| + |b| + |c|..|a| + |b| + |c| + |d|] == d
  {
  }

  /** A run of bytes at `at` made of x then rest: x at `at`, rest right after it. */
  lemma {:induction false} Peel<T>(buf: seq<T>, at: nat, x: seq<T>, rest: seq<T>)
    requires at + |x| + |rest| <= |buf| && buf[at..at + |x| + |rest|] == x + rest
    ensures buf[at..at + |x|] == x && buf[at + |x|..at + |x| + |rest|] == rest
  {
    assert buf[at..at + |x|] == buf[at..at + |x| + |rest|][..|x|];
    assert buf[at + |x|..at + |x| + |rest|] == buf[at..at + |x| + |rest|][|x|..];
  }

  /** Skipping k bytes of a zero tail leaves them zero before the new position and after it. */
  lemma {:induction false} SkipZeros(s: seq<byte>, p: nat, k: nat)
    requires p + k <= |s| && s[p..] == Zeros(|s| - p)
    ensures s[..p + k] == s[..p] + Zeros(k)
    ensures s[p + k..] == Zeros(|s| - p - k)
  {
    assert s[..p + k] == s[..p] + s[p..][..k];
    assert s[p + k..] == s[p..][k..];
  }

  /** memcpy(buffer + pos, bytes, |bytes|): only bytes pos .. pos + |bytes| change. */
  method Memcpy(buffer: array<byte>, pos: nat, bytes: seq<byte>)
    requires pos + |bytes| <= buffer.Length
    modifies buffer
    ensures buffer[..] == old(buffer[..pos]) + bytes + old(buffer[pos + |bytes|..])
  {
    ghost var before := buffer[..];
    for k := 0 to |bytes|
      invariant buffer[..] == before[..pos] + bytes[..k] + before[pos + k..]
    {
      buffer[pos + k] := bytes[k];
      assert bytes[..k + 1] == bytes[..k] + [bytes[k]];
    }
  }

  /**
   * Writing `bytes` at the end of what has been written so far, into a
   * zeroed tail: the written prefix grows by `bytes` and the rest stays zero.
   */
  method Append(buffer: array<byte>, pos: nat, bytes: seq<byte>)
    requires pos + |bytes| <= buffer.Length
    requires buffer[pos..] == Zeros(buffer.Length - pos)
    modifies buffer
    ensures buffer[..pos + |bytes|] == old(buffer[..pos]) + bytes
    ensures buffer[pos + |bytes|..] == Zeros(buffer.Length - pos - |bytes|)
  {
    ghost var prefix := buffer[..pos];
    ghost var tail := buffer[pos + |bytes|..];
    assert tail == buffer[pos..][|bytes|..];
    Memcpy(buffer, pos, bytes);
    Slices3(prefix, bytes, tail);
  }

  /** vector::resize to a larger size: the old contents, then zeros. */
  method Resize(buffer: array<byte>, size: nat) returns (resized: array<byte>)
    requires buffer.Length <= size
    ensures fresh(resized) && resized.Length == size
    ensures resized[..] == buffer[..] + Zeros(size - buffer.Length)
  {
    var contents := buffer[..];
    resized := new byte[size](k => if 0 <= k < |contents| then contents[k] else 0);
  }
}
