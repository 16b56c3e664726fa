/** Unsigned little-endian base-128 lengths: the player-name length and the
    life-bar payload length are stored this way. */
module Uleb128 {
  import opened Bytes
  import opened OsrTypes

  /** 128 to the power `n`, the weight of the `n`-th 7-bit group. */
  function Pow128(n: nat): (r: nat)
    ensures r > 0
  {
    if n == 0 then 1 else 128 * Pow128(n - 1)
  }

  /** True when the byte says that another byte follows (`b & 0x80`). */
  predicate Continues(b: byte) {
    b >= 128
  }

  /** The sum of `(s[k] & 0x7F) << 7k` over the bytes of `s`. */
  function Value(s: seq<byte>): nat
  {
    if s == [] then 0 else s[0] % 128 + 128 * Value(s[1..])
  }

  /** Appending a byte adds its low 7 bits at the next group's weight: the step of the
      source's loop, `length |= (b & 0x7F) << shift; shift += 7`. */
  lemma {:induction false} ValueAppend(s: seq<byte>, b: byte)
    ensures Value(s + [b]) == Value(s) + (b % 128) * Pow128(|s|)
  {
    if s == [] {
      assert [b][1..] == [];
    } else {
      assert (s + [b])[1..] == s[1..] + [b];
      ValueAppend(s[1..], b);
      var low, w := b % 128, Pow128(|s| - 1);
      assert Pow128(|s|) == 128 * w;
      assert 128 * (Value(s[1..]) + low * w) == 128 * Value(s[1..]) + low * (128 * w);
    }
  }

  /** Decodes the ULEB128 number that starts at `start`, or fails when the buffer ends
      before its last byte. */
  function Decode(buf: seq<byte>, start: nat): (r: Result<Read<nat>>)
    ensures r.Ok? ==> start < r.value.next <= |buf|
    ensures r.Err? ==> r.error == TruncatedInput
    decreases |buf| - start
  {
    if start >= |buf| then Err(TruncatedInput)
    else if !Continues(buf[start]) then Ok(Read(buf[start], start + 1))
    else
      match Decode(buf, start + 1)
      case Err(e) => Err(e)
      case Ok(rest) => Ok(Read(buf[start] % 128 + 128 * rest.value, rest.next))
  }

  /** Decoding ends at the first byte whose high bit is clear, and the value is the sum
      of the 7-bit groups up to it; it fails exactly when every byte left continues. */
  lemma {:induction false} DecodeStops(buf: seq<byte>, start: nat)
    ensures var r := Decode(buf, start);
      r.Ok? ==>
      && !Continues(buf[r.value.next - 1])
      && (forall k :: start <= k < r.value.next - 1 ==> Continues(buf[k]))
      && r.value.value == Value(buf[start..r.value.next])
    ensures Decode(buf, start).Err? <==> forall k :: start <= k < |buf| ==> Continues(buf[k])
    decreases |buf| - start
  {
    if start < |buf| && Continues(buf[start]) {
      DecodeStops(buf, start + 1);
      var r := Decode(buf, start + 1);
      if r.Ok? {
        assert buf[start..r.value.next][1..] == buf[start + 1..r.value.next];
      }
    }
  }

  /** The shortest ULEB128 encoding of `n`. */
  function Encode(n: nat): (s: seq<byte>)
    ensures |s| > 0
  {
    if n < 128 then [n] else [n % 128 + 128] + Encode(n / 128)
  }

  /** Round trip: wherever the encoding of `n` stands in a buffer, decoding there
      yields `n` and stops right after the encoding. */
  lemma {:induction false} DecodeEncode(buf: seq<byte>, start: nat, n: nat)
    requires start + |Encode(n)| <= |buf|
    requires buf[start..start + |Encode(n)|] == Encode(n)
    ensures Decode(buf, start) == Ok(Read(n, start + |Encode(n)|))
    decreases n
  {
    var e := Encode(n);
    assert buf[start] == e[0];
    if n >= 128 {
      var tail := Encode(n / 128);
      assert e == [n % 128 + 128] + tail;
      assert buf[start + 1..start + 1 + |tail|] == buf[start..start + |e|][1..] == tail;
      DecodeEncode(buf, start + 1, n / 128);
    }
  }

  /** Numbers below 2^32 take at most 5 bytes. */
  lemma {:induction false} EncodeLength(n: nat, k: nat)
    requires k > 0 && n < Pow128(k)
    ensures |Encode(n)| <= k
  {
    if n >= 128 {
      assert k != 1;
      EncodeLength(n / 128, k - 1);
    }
  }

  lemma EncodeLength32(n: nat)
    requires n < 0x1_0000_0000
    ensures |Encode(n)| <= 5
  {
    assert Pow128(5) == 0x8_0000_0000;
    EncodeLength(n, 5);
  }

  /** The source's decode loop, run over the file buffer from `start`. */
  method ReadUleb128(a: array<byte>, start: nat) returns (r: Result<Read<nat>>)
    ensures r == Decode(a[..], start)
  {
    if start > a.Length {
      return Err(TruncatedInput);
    }
    DecodeStops(a[..], start);
    var i := start;
    var length: nat := 0;
    var scale: nat := 1;  // 1 << shift
    while true
      invariant start <= i <= a.Length
      invariant forall k :: start <= k < i ==> Continues(a[k])
      invariant length == Value(a[start..i])
      invariant scale == Pow128(i - start)
      decreases a.Length - i
    {
      if i == a.Length {
        return Err(TruncatedInput);
      }
      var b: byte := a[i];
      ValueAppend(a[start..i], b);
      assert a[start..i + 1] == a[start..i] + [b];
      length := length + (b % 128) * scale;
      i := i + 1;
      if !Continues(b) {
        return Ok(Read(length, i));
      }
      scale := scale * 128;
    }
  }
}
