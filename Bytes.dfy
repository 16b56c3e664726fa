/** Little-endian fixed-width integers, the way the replay file stores them. */
module Bytes {

  /** One byte of the replay file. */
  type byte = x: int | 0 <= x < 256

  /** 256 to the power `n`: one more than the largest `n`-byte unsigned value. */
  function Pow256(n: nat): (r: nat)
    ensures r > 0
  {
    if n == 0 then 1 else 256 * Pow256(n - 1)
  }

  /** Half of Pow256(n): the bound of an `n`-byte two's complement value. */
  function Half(n: nat): (r: int)
    requires n > 0
    ensures r > 0 && 2 * r == Pow256(n)
  {
    128 * Pow256(n - 1)
  }

  /** The unsigned value of the `n` bytes at `at`, least significant byte first. */
  function UnsignedAt(buf: seq<byte>, at: nat, n: nat): nat
    requires at + n <= |buf|
    decreases n
  {
    if n == 0 then 0 else buf[at] + 256 * UnsignedAt(buf, at + 1, n - 1)
  }

  lemma {:induction false} UnsignedBound(buf: seq<byte>, at: nat, n: nat)
    requires at + n <= |buf|
    ensures UnsignedAt(buf, at, n) < Pow256(n)
    decreases n
  {
    if n > 0 {
      UnsignedBound(buf, at + 1, n - 1);
    }
  }

  /** The two's complement value of the `n` bytes at `at`, least significant byte first
      (what a C `char`, `short`, `int` or `long long` loaded from there holds): the top
      byte counts as signed, the ones below it as unsigned. */
  function SignedAt(buf: seq<byte>, at: nat, n: nat): int
    requires 0 < n && at + n <= |buf|
    decreases n
  {
    if n == 1 then (if buf[at] < 128 then buf[at] else buf[at] - 256)
    else buf[at] + 256 * SignedAt(buf, at + 1, n - 1)
  }

  /** SignedAt agrees with the textbook definition of two's complement: the unsigned
      value, less 256^n when the top bit is set. */
  lemma {:induction false} SignedUnsigned(buf: seq<byte>, at: nat, n: nat)
    requires 0 < n && at + n <= |buf|
    ensures SignedAt(buf, at, n) ==
      if UnsignedAt(buf, at, n) < Half(n) then UnsignedAt(buf, at, n) else UnsignedAt(buf, at, n) - Pow256(n)
    decreases n
  {
    if n == 1 {
      assert UnsignedAt(buf, at + 1, 0) == 0;
    } else {
      SignedUnsigned(buf, at + 1, n - 1);
      UnsignedBound(buf, at + 1, n - 1);
    }
  }

  /** The range of an `n`-byte signed value. */
  lemma {:induction false} SignedBound(buf: seq<byte>, at: nat, n: nat)
    requires 0 < n && at + n <= |buf|
    ensures -Half(n) <= SignedAt(buf, at, n) < Half(n)
    decreases n
  {
    if n > 1 {
      SignedBound(buf, at + 1, n - 1);
    }
  }

  /** UnsignedAt reads the same wherever the same bytes stand. */
  lemma {:induction false} UnsignedAtMoved(buf: seq<byte>, at: nat, s: seq<byte>, from: nat, n: nat)
    requires at + n <= |buf| && from + n <= |s|
    requires buf[at..at + n] == s[from..from + n]
    ensures UnsignedAt(buf, at, n) == UnsignedAt(s, from, n)
    decreases n
  {
    if n > 0 {
      assert buf[at] == buf[at..at + n][0];
      assert buf[at + 1..at + n] == buf[at..at + n][1..];
      assert s[from + 1..from + n] == s[from..from + n][1..];
      UnsignedAtMoved(buf, at + 1, s, from + 1, n - 1);
    }
  }

  /** SignedAt reads the same wherever the same bytes stand. */
  lemma {:induction false} SignedAtMoved(buf: seq<byte>, at: nat, s: seq<byte>, from: nat, n: nat)
    requires 0 < n && at + n <= |buf| && from + n <= |s|
    requires buf[at..at + n] == s[from..from + n]
    ensures SignedAt(buf, at, n) == SignedAt(s, from, n)
    decreases n
  {
    assert buf[at] == buf[at..at + n][0];
    if n > 1 {
      assert buf[at + 1..at + n] == buf[at..at + n][1..];
      assert s[from + 1..from + n] == s[from..from + n][1..];
      SignedAtMoved(buf, at + 1, s, from + 1, n - 1);
    }
  }

  /** The `w` bytes that store `n`, least significant first. */
  function EncodeUnsigned(n: nat, w: nat): (s: seq<byte>)
    requires n < Pow256(w)
    ensures |s| == w
    ensures UnsignedAt(s, 0, w) == n
    decreases w
  {
    if w == 0 then []
    else
      var s := [n % 256] + EncodeUnsigned(n / 256, w - 1);
      UnsignedAtMoved(s, 1, s[1..], 0, w - 1);
      s
  }

  /** The `w` bytes that store `v` in two's complement (`v` modulo 256^w, least
      significant byte first). */
  function EncodeSigned(v: int, w: nat): (s: seq<byte>)
    ensures |s| == w
    decreases w
  {
    if w == 0 then [] else if w == 1 then [v % 256] else [v % 256] + EncodeSigned(v / 256, w - 1)
  }

  /** Round trip: every value in the range of `w` bytes reads back from its bytes. */
  lemma {:induction false} SignedAtEncode(v: int, w: nat)
    requires w > 0 && -Half(w) <= v < Half(w)
    ensures SignedAt(EncodeSigned(v, w), 0, w) == v
    decreases w
  {
    var s := EncodeSigned(v, w);
    if w > 1 {
      SignedAtEncode(v / 256, w - 1);
      SignedAtMoved(s, 1, s[1..], 0, w - 1);
    }
  }

  /** The 32 bits of the 4-byte little-endian field at `at` (how the source reads
      `mods`). */
  function Bits32At(buf: seq<byte>, at: nat): bv32
    requires at + 4 <= |buf|
  {
    (buf[at] as bv32) | ((buf[at + 1] as bv32) << 8) | ((buf[at + 2] as bv32) << 16) | ((buf[at + 3] as bv32) << 24)
  }

  /** Bits32At reads the same wherever the same 4 bytes stand. */
  lemma Bits32Moved(buf: seq<byte>, at: nat, s: seq<byte>)
    requires at + 4 <= |buf| && |s| == 4 && buf[at..at + 4] == s
    ensures Bits32At(buf, at) == Bits32At(s, 0)
  {
    assert buf[at] == s[0] && buf[at + 1] == s[1] && buf[at + 2] == s[2] && buf[at + 3] == s[3];
  }

  /** The 4 bytes that store `b`, least significant first. */
  function BytesOf32(b: bv32): (s: seq<byte>)
    ensures |s| == 4
    ensures Bits32At(s, 0) == b
  {
    var s := [ByteOf(b, 0), ByteOf(b, 8), ByteOf(b, 16), ByteOf(b, 24)];
    assert Bits32At(s, 0) == (b & 0xFF) | (((b >> 8) & 0xFF) << 8) | (((b >> 16) & 0xFF) << 16) | (((b >> 24) & 0xFF) << 24);
    s
  }

  /** The byte of `b` that starts at bit `k`. */
  function ByteOf(b: bv32, k: bv6): (x: byte)
    requires k <= 24
    ensures x as bv32 == (b >> k) & 0xFF
  {
    var y := (b >> k) & 0xFF;
    assert (y as int) as bv32 == y;
    y as int
  }
}
