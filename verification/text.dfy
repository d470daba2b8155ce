/**
 * The two measures of a JavaScript string that the send-message payload
 * mixes: its `length` (UTF-16 code units) and the bytes `Buffer.from(s)`
 * produces (UTF-8). A Dafny `char` is a Unicode scalar value.
 */
module Text {
  import opened Bytes

  /** Number of UTF-16 code units of one scalar value. */
  function Utf16Units(c: char): (n: nat)
    ensures n == 1 || n == 2
    ensures n == 1 <==> (c as int) < 0x10000
  {
    if (c as int) < 0x10000 then 1 else 2
  }

  /** `s.length` of the JavaScript string holding `s`. */
  function Utf16Length(s: string): (n: nat)
    ensures |s| <= n <= 2 * |s|
  {
    if s == [] then 0 else Utf16Length(s[..|s| - 1]) + Utf16Units(s[|s| - 1])
  }

  /** UTF-8 encoding of one scalar value. */
  function Utf8Char(c: char): (b: Bytes)
    ensures 1 <= |b| <= 4
    ensures |b| == 1 <==> (c as int) < 0x80
    ensures |b| == 1 ==> b[0] == c as int
  {
    var v := c as int;
    if v < 0x80 then [v]
    else if v < 0x800 then [0xC0 + v / 64, 0x80 + v % 64]
    else if v < 0x10000 then [0xE0 + v / 4096, 0x80 + (v / 64) % 64, 0x80 + v % 64]
    else [0xF0 + v / 262144, 0x80 + (v / 4096) % 64, 0x80 + (v / 64) % 64, 0x80 + v % 64]
  }

  /** `Buffer.from(s)`: the UTF-8 bytes of `s`. */
  function Utf8(s: string): (b: Bytes)
    ensures |s| <= |b| <= 4 * |s|
  {
    if s == [] then [] else Utf8(s[..|s| - 1]) + Utf8Char(s[|s| - 1])
  }

  predicate IsAscii(s: string) {
    forall i :: 0 <= i < |s| ==> (s[i] as int) < 0x80
  }

  /**
   * For ASCII text the UTF-16 length equals the number of UTF-8 bytes, and
   * each byte is the character's code.
   */
  lemma {:induction false} AsciiLengthsAgree(s: string)
    requires IsAscii(s)
    ensures Utf16Length(s) == |Utf8(s)| == |s|
    ensures forall i :: 0 <= i < |s| ==> Utf8(s)[i] == s[i] as int
  {
    if s != [] {
      var init := s[..|s| - 1];
      assert IsAscii(init) by {
        forall i | 0 <= i < |init| ensures (init[i] as int) < 0x80 {
          assert init[i] == s[i];
        }
      }
      AsciiLengthsAgree(init);
    }
  }

  /** One non-ASCII character: the length field says 1, the buffer holds 2 bytes. */
  lemma LengthsDisagreeBeyondAscii()
    ensures Utf16Length("é") == 1 && |Utf8("é")| == 2
  {
    assert "é"[..0] == [];
  }
}
