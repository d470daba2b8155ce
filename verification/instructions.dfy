/**
 * The five instructions of the on-chain program as the client assembles
 * them: an ordered list of account references with signer and writable
 * flags, and a payload that starts with the operation's discriminator.
 */
module Instructions {
  import opened Wrappers
  import opened Bytes
  import opened Text
  import opened Derivation

  datatype AccountMeta = AccountMeta(pubkey: Key, isSigner: bool, isWritable: bool)

  datatype Instruction = Instruction(programId: Key, keys: seq<AccountMeta>, data: Bytes)

  /** `new Transaction().add(ix)`: an unsigned transaction holding the instruction. */
  datatype Transaction = Transaction(instructions: seq<Instruction>)

  /** Why a builder (or a read of the client's state) refuses. */
  datatype StemError =
    | NotLoaded
    | NotRegistered
    | AlreadyRegistered
    | AlreadyInvited
    | NotInvited
    | SelfInvite
    | MissingWalletKey
    | LengthOutOfRange
    | DecodeFailed

  /** The keys of the accounts that must sign. */
  function Signers(keys: seq<AccountMeta>): set<Key>
  {
    set m | m in keys && m.isSigner :: m.pubkey
  }

  /** The keys of the accounts the instruction may write. */
  function Writable(keys: seq<AccountMeta>): set<Key>
  {
    set m | m in keys && m.isWritable :: m.pubkey
  }

  function RegisterKeys(c: Crypto, owner: Key): seq<AccountMeta>
  {
    [ AccountMeta(DescriptorPda(c, owner), false, true),
      AccountMeta(owner, true, false),
      AccountMeta(SYSTEM_PROGRAM_ID, false, false)]
  }

  function RegisterIx(c: Crypto, owner: Key): Instruction
  {
    Instruction(PROGRAM_ID, RegisterKeys(c, owner), Disc(c, "register"))
  }

  function InviteKeys(c: Crypto, me: Key, peer: Key): seq<AccountMeta>
  {
    [ AccountMeta(me, true, false),
      AccountMeta(peer, false, false),
      AccountMeta(DescriptorPda(c, me), false, true),
      AccountMeta(DescriptorPda(c, peer), false, true),
      AccountMeta(SYSTEM_PROGRAM_ID, false, false)]
  }

  function InviteIx(c: Crypto, me: Key, peer: Key): Instruction
  {
    Instruction(PROGRAM_ID, InviteKeys(c, me, peer), Disc(c, "invite"))
  }

  function RejectKeys(c: Crypto, me: Key, peer: Key): seq<AccountMeta>
  {
    [ AccountMeta(me, true, false),
      AccountMeta(peer, false, false),
      AccountMeta(DescriptorPda(c, me), false, true),
      AccountMeta(DescriptorPda(c, peer), false, true)]
  }

  function RejectIx(c: Crypto, me: Key, peer: Key): Instruction
  {
    Instruction(PROGRAM_ID, RejectKeys(c, me, peer), Disc(c, "reject"))
  }

  function AcceptKeys(c: Crypto, me: Key, peer: Key): seq<AccountMeta>
  {
    [ AccountMeta(me, true, false),
      AccountMeta(peer, false, false),
      AccountMeta(DescriptorPda(c, me), false, true),
      AccountMeta(DescriptorPda(c, peer), false, true),
      AccountMeta(ChatPda(c, me, peer), false, true),
      AccountMeta(SYSTEM_PROGRAM_ID, false, false)]
  }

  function AcceptIx(c: Crypto, me: Key, peer: Key): Instruction
  {
    Instruction(PROGRAM_ID, AcceptKeys(c, me, peer), Disc(c, "accept") + ChatHash(c, me, peer))
  }

  function SendMessageKeys(c: Crypto, me: Key, peer: Key): seq<AccountMeta>
  {
    [ AccountMeta(me, true, false),
      AccountMeta(ChatPda(c, me, peer), false, true),
      AccountMeta(SYSTEM_PROGRAM_ID, false, false)]
  }

  /** The u32 length field holds `message.length` (UTF-16 units); the content is the UTF-8 bytes. */
  function SendMessageIx(c: Crypto, me: Key, peer: Key, message: string): Instruction
    requires Utf16Length(message) < U32_LIMIT
  {
    Instruction(PROGRAM_ID, SendMessageKeys(c, me, peer),
      Disc(c, "sendmessage") + ChatHash(c, me, peer) + U32Le(Utf16Length(message)) + Utf8(message))
  }

  /** `Buffer.writeUInt32LE(message.length)` refuses a value that does not fit in 32 bits. */
  function BuildSendMessage(c: Crypto, me: Key, peer: Key, message: string): (r: Result<Transaction, StemError>)
    ensures r.Ok? <==> Utf16Length(message) < U32_LIMIT
    ensures r.Err? ==> r.error == LengthOutOfRange
    ensures r.Ok? ==> r.value.instructions == [SendMessageIx(c, me, peer, message)]
  {
    if Utf16Length(message) >= U32_LIMIT then Err(LengthOutOfRange)
    else Ok(Transaction([SendMessageIx(c, me, peer, message)]))
  }

  /**
   * Register, invite and reject carry the 8-byte discriminator alone;
   * accept carries the discriminator and the 32-byte chat hash, 40 bytes.
   */
  lemma PayloadLayouts(c: Crypto, me: Key, peer: Key)
    ensures RegisterIx(c, me).data == Disc(c, "register") && |RegisterIx(c, me).data| == 8
    ensures InviteIx(c, me, peer).data == Disc(c, "invite") && |InviteIx(c, me, peer).data| == 8
    ensures RejectIx(c, me, peer).data == Disc(c, "reject") && |RejectIx(c, me, peer).data| == 8
    ensures var d := AcceptIx(c, me, peer).data;
      |d| == 40 && d[..8] == Disc(c, "accept") && d[8..] == ChatHash(c, me, peer)
  {
    var d := AcceptIx(c, me, peer).data;
    assert d[..8] == Disc(c, "accept");
  }

  /** The identifier in an accept payload is the one the other party derives too. */
  lemma AcceptNamesSharedChat(c: Crypto, me: Key, peer: Key)
    ensures AcceptIx(c, me, peer).data[8..] == ChatHash(c, peer, me)
    ensures AcceptKeys(c, me, peer)[4].pubkey == ChatPda(c, peer, me)
  {
    PayloadLayouts(c, me, peer);
    ChatHashSymmetric(c, me, peer);
    ChatPdaSymmetric(c, me, peer);
  }

  /**
   * The send-message payload: discriminator at 0..8, chat hash at 8..40,
   * the UTF-16 length at 40..44 (little-endian), the UTF-8 content from 44.
   */
  lemma SendMessageLayout(c: Crypto, me: Key, peer: Key, message: string)
    requires Utf16Length(message) < U32_LIMIT
    ensures var d := SendMessageIx(c, me, peer, message).data;
      && |d| == 44 + |Utf8(message)|
      && d[..8] == Disc(c, "sendmessage")
      && d[8..40] == ChatHash(c, me, peer)
      && ReadU32Le(d[40..]) == Utf16Length(message)
      && d[44..] == Utf8(message)
  {
    var n := Utf16Length(message);
    SplitPayload(Disc(c, "sendmessage"), ChatHash(c, me, peer), n, Utf8(message));
  }

  /** Where the four parts of a send-message payload sit. */
  lemma SplitPayload(disc: Bytes, hash: Bytes, n: nat, content: Bytes)
    requires |disc| == 8 && |hash| == 32 && n < U32_LIMIT
    ensures var d := disc + hash + U32Le(n) + content;
      && |d| == 44 + |content|
      && d[..8] == disc && d[8..40] == hash
      && ReadU32Le(d[40..]) == n && d[44..] == content
  {
    var d := disc + hash + U32Le(n) + content;
    assert d[..8] == disc;
    assert d[8..40] == hash;
    assert d[40..] == U32Le(n) + content;
    ReadWriteU32(n, content);
  }

  /**
   * How a reader of the payload splits it: a chat hash, then a u32 length
   * and that many content bytes. None when the bytes run out.
   */
  function ReadSendMessageData(d: Bytes): (r: Option<(Bytes, Bytes)>)
    ensures r.Some? ==> |r.value.0| == 32 && 44 + |r.value.1| <= |d|
    ensures r.Some? <==> 44 <= |d| && 44 + ReadU32Le(d[40..]) <= |d|
  {
    if |d| < 44 then None
    else
      var len := ReadU32Le(d[40..]);
      if |d| < 44 + len then None else Some((d[8..40], d[44..44 + len]))
  }

  /** A payload whose length field says n reads back the hash and the first n content bytes. */
  lemma ReadSendMessageOf(disc: Bytes, hash: Bytes, n: nat, content: Bytes)
    requires |disc| == 8 && |hash| == 32 && n <= |content| && n < U32_LIMIT
    ensures ReadSendMessageData(disc + hash + U32Le(n) + content) == Some((hash, content[..n]))
  {
    var d := disc + hash + U32Le(n) + content;
    assert d[8..40] == hash;
    assert d[40..] == U32Le(n) + content;
    ReadWriteU32(n, content);
    assert d[44..44 + n] == content[..n];
  }

  /** For an ASCII message the length field counts exactly the content bytes, so the payload reads back whole. */
  lemma SendMessageReadsBackAscii(c: Crypto, me: Key, peer: Key, message: string)
    requires IsAscii(message) && |message| < U32_LIMIT
    ensures Utf16Length(message) < U32_LIMIT
    ensures ReadSendMessageData(SendMessageIx(c, me, peer, message).data) == Some((ChatHash(c, me, peer), Utf8(message)))
  {
    AsciiLengthsAgree(message);
    var content := Utf8(message);
    assert content[..|message|] == content;
    ReadSendMessageOf(Disc(c, "sendmessage"), ChatHash(c, me, peer), |message|, content);
  }

  /** With one two-byte character the length field says 1, so a reader takes only the first content byte. */
  lemma SendMessageTruncatesNonAscii(c: Crypto, me: Key, peer: Key)
    ensures Utf16Length("é") < U32_LIMIT
    ensures ReadSendMessageData(SendMessageIx(c, me, peer, "é").data) == Some((ChatHash(c, me, peer), [0xC3]))
  {
    LengthsDisagreeBeyondAscii();
    assert "é"[..0] == [];
    var content := Utf8("é");
    assert content == [0xC3, 0xA9];
    assert content[..1] == [0xC3];
    ReadSendMessageOf(Disc(c, "sendmessage"), ChatHash(c, me, peer), 1, content);
  }

  /** Register is signed by the owner and writes only the owner's descriptor. */
  lemma RegisterKeyRoles(c: Crypto, me: Key)
    ensures Signers(RegisterKeys(c, me)) == {me}
    ensures Writable(RegisterKeys(c, me)) == {DescriptorPda(c, me)}
  {
  }

  /** Invite and reject are signed by the caller and write both descriptors. */
  lemma InviteRejectKeyRoles(c: Crypto, me: Key, peer: Key)
    ensures Signers(InviteKeys(c, me, peer)) == {me}
    ensures Writable(InviteKeys(c, me, peer)) == {DescriptorPda(c, me), DescriptorPda(c, peer)}
    ensures Signers(RejectKeys(c, me, peer)) == {me}
    ensures Writable(RejectKeys(c, me, peer)) == {DescriptorPda(c, me), DescriptorPda(c, peer)}
  {
  }

  /** Accept is signed by the invitee and writes both descriptors and the chat account it creates. */
  lemma AcceptKeyRoles(c: Crypto, me: Key, peer: Key)
    ensures Signers(AcceptKeys(c, me, peer)) == {me}
    ensures Writable(AcceptKeys(c, me, peer)) == {DescriptorPda(c, me), DescriptorPda(c, peer), ChatPda(c, me, peer)}
  {
  }

  /** Send-message is signed by the sender and writes only the chat account. */
  lemma SendMessageKeyRoles(c: Crypto, me: Key, peer: Key)
    ensures Signers(SendMessageKeys(c, me, peer)) == {me}
    ensures Writable(SendMessageKeys(c, me, peer)) == {ChatPda(c, me, peer)}
  {
  }
}
