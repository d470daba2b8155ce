/**
 * Address and identifier derivation: operation discriminators, the
 * descriptor address of a key, and the order-independent chat hash and chat
 * address of two keys. SHA-256 and the program-address search are platform
 * primitives, passed in as a `Crypto` value about which nothing is assumed
 * except the 32-byte length of their results.
 */
module Derivation {
  import opened Bytes
  import Text

  datatype Crypto = Crypto(
    sha256: Bytes -> Key,
    findProgramAddress: (seq<Bytes>, Key) -> Key)

  /** BjheWDpSQGu1VmY1MHQPzvyBZDWvAnfrnw55mHr33BRB, base58-decoded. */
  const PROGRAM_ID: Key := [
    159, 133, 56, 247, 43, 120, 119, 77, 194, 7, 39, 114, 47, 179, 46, 41,
    108, 225, 1, 67, 86, 2, 154, 89, 59, 160, 239, 170, 204, 134, 104, 242]

  /** The system program, 11111111111111111111111111111111 in base58. */
  const SYSTEM_PROGRAM_ID: Key := Zeros(32)

  const SEED_DESCRIPTOR: Bytes := Text.Utf8("wallet_descriptor")

  /** The seed is spelt this way by the on-chain program. */
  const SEED_PRIVATE_CHAT: Bytes := Text.Utf8("privite_chat")

  /** The 8-byte discriminator that prefixes an instruction's data. */
  function Disc(c: Crypto, name: string): (d: Bytes)
    ensures |d| == 8
    ensures d <= c.sha256(Text.Utf8("global:" + name))
  {
    Subarray(c.sha256(Text.Utf8("global:" + name)), 0, 8)
  }

  /** The address of the descriptor account that `owner` registers. */
  function DescriptorPda(c: Crypto, owner: Key): Key
  {
    c.findProgramAddress([SEED_DESCRIPTOR, owner], PROGRAM_ID)
  }

  /** The first index at or after `from` where `a` and `b` differ, or 32. */
  function FirstDiff(a: Key, b: Key, from: nat): (i: nat)
    requires from <= 32
    ensures from <= i <= 32
    ensures forall j :: from <= j < i ==> a[j] == b[j]
    ensures i < 32 ==> a[i] != b[i]
    decreases 32 - from
  {
    if from == 32 || a[from] != b[from] then from else FirstDiff(a, b, from + 1)
  }

  /**
   * The 64 bytes hashed into a chat identifier: the key whose byte is
   * smaller at the first differing position, then the other key. For equal
   * keys no copy happens and the buffer stays all zero.
   */
  function ChatPreimage(a: Key, b: Key): (raw: Bytes)
    ensures |raw| == 64
  {
    var i := FirstDiff(a, b, 0);
    if i == 32 then Zeros(64)
    else if a[i] < b[i] then a + b
    else b + a
  }

  /** Fills a fresh zeroed 64-byte buffer the way getChatHash does, stopping at the first difference. */
  method FillChatPreimage(a: Key, b: Key) returns (raw: array<byte>)
    ensures raw.Length == 64
    ensures raw[..] == ChatPreimage(a, b)
  {
    raw := new byte[64](j => 0);
    var i := 0;
    while i < 32
      invariant 0 <= i <= 32
      invariant forall j :: 0 <= j < i ==> a[j] == b[j]
      invariant raw[..] == Zeros(64)
    {
      if a[i] == b[i] {
        i := i + 1;
        continue;
      }
      var lo, hi := a, b;
      if b[i] < a[i] {
        lo, hi := b, a;
      }
      forall j | 0 <= j < 32 {
        raw[j] := lo[j];
      }
      forall j | 32 <= j < 64 {
        raw[j] := hi[j - 32];
      }
      assert FirstDiff(a, b, 0) == i;
      assert raw[..] == lo + hi;
      return;
    }
    assert FirstDiff(a, b, 0) == 32;
  }

  /** The chat identifier: SHA-256 of the ordered preimage. */
  function ChatHash(c: Crypto, a: Key, b: Key): Key
  {
    c.sha256(ChatPreimage(a, b))
  }

  /** getChatHash, with its buffer-filling loop. */
  method GetChatHash(c: Crypto, a: Key, b: Key) returns (h: Key)
    ensures h == ChatHash(c, a, b)
  {
    var raw := FillChatPreimage(a, b);
    h := c.sha256(raw[..]);
  }

  /** The address of the chat account shared by `a` and `b`. */
  function ChatPda(c: Crypto, a: Key, b: Key): Key
  {
    c.findProgramAddress([SEED_PRIVATE_CHAT, Subarray(ChatHash(c, a, b), 0, 64)], PROGRAM_ID)
  }

  /** Lexicographic order on equal-length byte strings, defined head first. */
  predicate LexLess(a: Bytes, b: Bytes)
    requires |a| == |b|
  {
    |a| > 0 && (a[0] < b[0] || (a[0] == b[0] && LexLess(a[1..], b[1..])))
  }

  /** On the suffixes from `from`, LexLess is decided by the first differing byte. */
  lemma {:induction false} LexLessAtFirstDiff(a: Key, b: Key, from: nat)
    requires from <= 32
    ensures var i := FirstDiff(a, b, from);
      LexLess(a[from..], b[from..]) <==> i < 32 && a[i] < b[i]
    decreases 32 - from
  {
    if from < 32 {
      assert a[from..][1..] == a[from + 1..] && b[from..][1..] == b[from + 1..];
      LexLessAtFirstDiff(a, b, from + 1);
    }
  }

  lemma {:induction false} FirstDiffSymmetric(a: Key, b: Key, from: nat)
    requires from <= 32
    ensures FirstDiff(a, b, from) == FirstDiff(b, a, from)
    decreases 32 - from
  {
    if from < 32 && a[from] == b[from] {
      FirstDiffSymmetric(a, b, from + 1);
    }
  }

  /**
   * The preimage is the lexicographically smaller key followed by the
   * larger one, and 64 zero bytes when the keys are equal.
   */
  lemma ChatPreimageOrdered(a: Key, b: Key)
    ensures a == b ==> ChatPreimage(a, b) == Zeros(64)
    ensures LexLess(a, b) ==> ChatPreimage(a, b) == a + b
    ensures LexLess(b, a) ==> ChatPreimage(a, b) == b + a
    ensures a != b ==> LexLess(a, b) != LexLess(b, a)
  {
    LexLessAtFirstDiff(a, b, 0);
    LexLessAtFirstDiff(b, a, 0);
    FirstDiffSymmetric(a, b, 0);
    assert a[0..] == a && b[0..] == b;
    if a != b {
      assert FirstDiff(a, b, 0) < 32;
    }
  }

  /** The preimage does not depend on the order of the two keys. */
  lemma ChatPreimageSymmetric(a: Key, b: Key)
    ensures ChatPreimage(a, b) == ChatPreimage(b, a)
  {
    FirstDiffSymmetric(a, b, 0);
  }

  /** Two distinct keys are recovered, as an unordered pair, from their preimage. */
  lemma ChatPreimageInjective(a: Key, b: Key, c: Key, d: Key)
    requires a != b && c != d
    requires ChatPreimage(a, b) == ChatPreimage(c, d)
    ensures (a == c && b == d) || (a == d && b == c)
  {
    ChatPreimageOrdered(a, b);
    ChatPreimageOrdered(c, d);
    var p := ChatPreimage(a, b);
    assert (a + b)[..32] == a && (a + b)[32..] == b;
    assert (b + a)[..32] == b && (b + a)[32..] == a;
    assert (c + d)[..32] == c && (c + d)[32..] == d;
    assert (d + c)[..32] == d && (d + c)[32..] == c;
  }

  /** Both parties derive the same chat identifier. */
  lemma ChatHashSymmetric(c: Crypto, a: Key, b: Key)
    ensures ChatHash(c, a, b) == ChatHash(c, b, a)
  {
    ChatPreimageSymmetric(a, b);
  }

  /** Both parties derive the same chat address. */
  lemma ChatPdaSymmetric(c: Crypto, a: Key, b: Key)
    ensures ChatPda(c, a, b) == ChatPda(c, b, a)
  {
    ChatHashSymmetric(c, a, b);
  }
}
