/**
 * Byte strings, 32-byte public keys and the little-endian u32 that every
 * Borsh length prefix and the send-message length field use.
 */
module Bytes {

  type byte = x: int | 0 <= x < 256

  type Bytes = seq<byte>

  /** A 32-byte public key (also the shape of a SHA-256 digest). */
  type Key = s: Bytes | |s| == 32 witness seq(32, i => 0)

  /**
   * Buffer.subarray(lo, hi): both ends are clamped to the buffer, so a
   * range past the end yields fewer bytes (or none) instead of failing.
   */
  function Subarray(b: Bytes, lo: nat, hi: nat): (r: Bytes)
    ensures hi <= |b| && lo <= hi ==> r == b[lo..hi]
    ensures lo <= |b| <= hi ==> r == b[lo..]
    ensures |b| <= lo || hi < lo ==> r == []
    ensures lo <= |b| ==> r <= b[lo..]
  {
    var h := if hi < |b| then hi else |b|;
    var l := if lo < h then lo else h;
    b[l..h]
  }

  const U32_LIMIT: nat := 0x1_0000_0000

  function Zeros(n: nat): (z: Bytes)
    ensures |z| == n
    ensures forall i :: 0 <= i < n ==> z[i] == 0
  {
    seq(n, i => 0)
  }

  /** Buffer.writeUInt32LE: the four bytes of `x`, least significant first. */
  function U32Le(x: nat): (b: Bytes)
    requires x < U32_LIMIT
    ensures |b| == 4
  {
    [x % 256, x / 256 % 256, x / 256 / 256 % 256, x / 256 / 256 / 256]
  }

  /** Buffer.readUInt32LE on the first four bytes of `b`. */
  function ReadU32Le(b: Bytes): (x: nat)
    requires |b| >= 4
    ensures x < U32_LIMIT
  {
    b[0] as int + 256 * b[1] as int + 65536 * b[2] as int + 16777216 * b[3] as int
  }

  lemma ReadWriteU32(x: nat, rest: Bytes)
    requires x < U32_LIMIT
    ensures ReadU32Le(U32Le(x) + rest) == x
  {
    var x1 := x / 256;
    var x2 := x1 / 256;
    var x3 := x2 / 256;
    assert x == x % 256 + 256 * x1;
    assert x1 == x1 % 256 + 256 * x2;
    assert x2 == x2 % 256 + 256 * x3;
    var b := U32Le(x) + rest;
    assert b[0] == x % 256 && b[1] == x1 % 256 && b[2] == x2 % 256 && b[3] == x3;
  }

  lemma WriteReadU32(b: Bytes)
    requires |b| == 4
    ensures U32Le(ReadU32Le(b)) == b
  {
    var b0, b1, b2, b3 := b[0] as int, b[1] as int, b[2] as int, b[3] as int;
    var x := ReadU32Le(b);
    var q2 := b2 + 256 * b3;
    var q1 := b1 + 256 * q2;
    assert x == b0 + 256 * q1;
    DigitSplit(b0, q1);
    DigitSplit(b1, q2);
    DigitSplit(b2, b3);
  }

  /** The base-256 digit arithmetic behind U32Le and ReadU32Le. */
  lemma DigitSplit(r: int, q: int)
    requires 0 <= r < 256 && 0 <= q
    ensures (r + 256 * q) % 256 == r && (r + 256 * q) / 256 == q
  {
  }

  /** Reading a u32 looks at nothing past the fourth byte. */
  lemma ReadU32Prefix(b: Bytes, c: Bytes)
    requires |b| >= 4 && |c| >= 4 && b[..4] == c[..4]
    ensures ReadU32Le(b) == ReadU32Le(c)
  {
    assert b[0] == c[0] && b[1] == c[1] && b[2] == c[2] && b[3] == c[3] by {
      assert b[..4][0] == c[..4][0] && b[..4][1] == c[..4][1];
      assert b[..4][2] == c[..4][2] && b[..4][3] == c[..4][3];
    }
  }
}
