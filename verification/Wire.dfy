/** The fixed-width fields that the Spread daemon copies into and out of message buffers, and
    the in-place copy itself. Integers are little-endian, as on the daemon's own machine. */
module Wire {

  type byte = x: int | 0 <= x < 256
  type int32 = x: int | -0x8000_0000 <= x < 0x8000_0000

  const MAX_GROUP_NAME := 32

  /** A group name or private group name: a C string, zero padded to its field. */
  type Name = s: seq<byte> | |s| == MAX_GROUP_NAME witness seq(MAX_GROUP_NAME, _ => 0)

  /** `++` on an int32 field. */
  function Increment(x: int32): (r: int32) {
    if x == 0x7fff_ffff then -0x8000_0000 else x + 1
  }

  /** The n low bytes of u, lowest first. */
  function Little(u: nat, n: nat): (b: seq<byte>)
    ensures |b| == n
  {
    if n == 0 then [] else [u % 256] + Little(u / 256, n - 1)
  }

  function Range(n: nat): nat {
    if n == 0 then 1 else 256 * Range(n - 1)
  }

  function Value(b: seq<byte>): (x: nat)
    ensures x < Range(|b|)
  {
    if b == [] then 0 else
      var low: int := b[0];
      low + 256 * Value(b[1..])
  }

  /** A field of n bytes gives back every number it is wide enough for. */
  lemma {:induction false} LittleRoundTrip(u: nat, n: nat)
    requires u < Range(n)
    ensures Value(Little(u, n)) == u
  {
    if n > 0 {
      LittleRoundTrip(u / 256, n - 1);
      assert Little(u, n)[1..] == Little(u / 256, n - 1);
    }
  }

  function Put16(x: nat): (b: seq<byte>)
    ensures |b| == 2
  {
    Little(x, 2)
  }

  function Get16(b: seq<byte>): (x: nat)
    requires |b| == 2
  {
    Value(b)
  }

  /** A signed or unsigned 32-bit field, in two's complement. */
  function Put32(x: int): (b: seq<byte>)
    requires -0x8000_0000 <= x
    ensures |b| == 4
  {
    Little(if x < 0 then x + 0x1_0000_0000 else x, 4)
  }

  /** Reads an unsigned field. */
  function Get32u(b: seq<byte>): (x: nat)
    requires |b| == 4
  {
    Value(b)
  }

  /** Reads a signed field. */
  function Get32(b: seq<byte>): (x: int32)
    requires |b| == 4
  {
    var u := Value(b);
    Widths();
    if u < 0x8000_0000 then u else u - 0x1_0000_0000
  }

  lemma Widths()
    ensures Range(2) == 0x1_0000 && Range(4) == 0x1_0000_0000
  {
    assert Range(1) == 256;
    assert Range(3) == 0x100_0000;
  }

  lemma RoundTrip16(x: nat)
    requires x < 0x1_0000
    ensures Get16(Put16(x)) == x
  {
    Widths();
    LittleRoundTrip(x, 2);
  }

  lemma RoundTrip32u(x: nat)
    requires x < 0x1_0000_0000
    ensures Get32u(Put32(x)) == x
  {
    Widths();
    LittleRoundTrip(x, 4);
  }

  lemma RoundTrip32(x: int32)
    ensures Get32(Put32(x)) == x
  {
    Widths();
    LittleRoundTrip(if x < 0 then x + 0x1_0000_0000 else x, 4);
  }

  /** `memcpy` of b into the buffer at offset `at`. */
  method CopyInto(buf: array<byte>, at: nat, b: seq<byte>)
    requires at + |b| <= buf.Length
    modifies buf
    ensures buf[..at] == old(buf[..at])
    ensures buf[at..at + |b|] == b
    ensures buf[at + |b|..] == old(buf[at + |b|..])
  {
    for i := 0 to |b|
      invariant buf[..at] == old(buf[..at])
      invariant forall j | 0 <= j < i :: buf[at + j] == b[j]
      invariant forall j | at + |b| <= j < buf.Length :: buf[j] == old(buf[j])
    {
      buf[at + i] := b[i];
    }
  }

  // ---------------------------------------------------------------- the buffer

  /** Copies b behind the n bytes written so far. */
  method Append(buf: array<byte>, n: nat, b: seq<byte>) returns (end: nat)
    requires n + |b| <= buf.Length
    modifies buf
    ensures end == n + |b| && buf[..end] == old(buf[..n]) + b
  {
    CopyInto(buf, n, b);
    end := n + |b|;
    assert buf[..end] == buf[..n] + buf[n..end];
  }

  /** Overwrites the gap left between what is written before and behind it. */
  method Patch(buf: array<byte>, at: nat, b: seq<byte>, ghost rest: seq<byte>)
    requires at + |b| + |rest| <= buf.Length && buf[at + |b|..at + |b| + |rest|] == rest
    modifies buf
    ensures buf[..at + |b| + |rest|] == old(buf[..at]) + b + rest
  {
    CopyInto(buf, at, b);
    var n := at + |b| + |rest|;
    assert buf[at + |b|..n] == buf[at + |b|..][..|rest|];
    assert rest == old(buf[at + |b|..])[..|rest|];
    assert buf[..n] == buf[..at] + buf[at..at + |b|] + buf[at + |b|..n];
  }

  /** What follows a prefix. */
  lemma Behind(buf: array<byte>, end: nat, head: seq<byte>, rest: seq<byte>)
    requires end <= buf.Length && buf[..end] == head + rest
    ensures buf[..|head|] == head && buf[|head|..end] == rest
  {
    assert buf[..|head|] == buf[..end][..|head|];
    assert buf[|head|..end] == buf[..end][|head|..];
  }
}
