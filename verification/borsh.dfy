/**
 * The Borsh layouts of the program's accounts: fixed arrays carry no
 * prefix, a vector carries a u32 little-endian element count, a string a
 * u32 little-endian byte length, and u8/u32 are little-endian. Decoders are
 * prefix parsers returning the value and the unread bytes; encoders are the
 * reference they are proved against.
 */
module Borsh {
  import opened Wrappers
  import opened Bytes

  datatype DecodeError = BufferTooShort

  /** A decoded value and the bytes after it. */
  type Decoded<T> = Result<(T, Bytes), DecodeError>

  /** Eight raw bytes, as the message timestamp is stored. */
  type Bytes8 = s: Bytes | |s| == 8 witness seq(8, i => 0)

  /** PeerSchema: 32 pubkey bytes, then the status as a raw u8 (not checked against 0..3). */
  datatype Peer = Peer(pubkey: Key, status: byte)

  /** DescriptorSchema: a vector of peers. */
  datatype Descriptor = Descriptor(peers: seq<Peer>)

  /** MessageSchema: sender, string content (kept as its bytes), 8 timestamp bytes. */
  datatype MessageRecord = MessageRecord(sender: Key, content: Bytes, timestamp: Bytes8)

  /** ChatSchema: two wallets as a fixed array, a u32 length, a vector of messages. */
  datatype ChatRecord = ChatRecord(wallets: seq<Key>, length: nat, messages: seq<MessageRecord>)

  /** Account data starts with an 8-byte account tag; subarray(8) drops it (and yields nothing from a shorter buffer). */
  function AccountBody(data: Bytes): (body: Bytes)
    ensures |data| >= 8 ==> data == data[..8] + body
    ensures |data| <= 8 ==> body == []
  {
    Subarray(data, 8, |data|)
  }

  lemma AccountBodySkipsTag(tag: Bytes, body: Bytes)
    requires |tag| == 8
    ensures AccountBody(tag + body) == body
  {
    assert (tag + body)[8..] == body;
  }

  // ---------------------------------------------------------------- Peer and Descriptor

  function EncodePeer(p: Peer): (b: Bytes)
    ensures |b| == 33
  {
    p.pubkey + [p.status]
  }

  function DecodePeer(b: Bytes): (r: Decoded<Peer>)
    ensures r.Ok? <==> |b| >= 33
  {
    if |b| < 33 then Err(BufferTooShort) else Ok((Peer(b[..32], b[32]), b[33..]))
  }

  function EncodePeers(ps: seq<Peer>): (b: Bytes)
  {
    if ps == [] then [] else EncodePeer(ps[0]) + EncodePeers(ps[1..])
  }

  /** Reads `n` peers one after the other. */
  function DecodePeers(b: Bytes, n: nat): (r: Decoded<seq<Peer>>)
    ensures r.Ok? ==> |r.value.0| == n
    decreases n
  {
    if n == 0 then Ok(([], b))
    else match DecodePeer(b)
      case Err(e) => Err(e)
      case Ok((p, rest)) =>
        match DecodePeers(rest, n - 1)
        case Err(e) => Err(e)
        case Ok((ps, rest')) => Ok(([p] + ps, rest'))
  }

  function EncodeDescriptor(d: Descriptor): (b: Bytes)
    requires |d.peers| < U32_LIMIT
  {
    U32Le(|d.peers|) + EncodePeers(d.peers)
  }

  /** A u32 peer count, then that many peers. */
  function DecodeDescriptor(b: Bytes): (r: Decoded<Descriptor>)
    ensures r.Ok? ==> |b| >= 4 && |r.value.0.peers| == ReadU32Le(b)
  {
    if |b| < 4 then Err(BufferTooShort)
    else match DecodePeers(b[4..], ReadU32Le(b))
      case Err(e) => Err(e)
      case Ok((ps, rest)) => Ok((Descriptor(ps), rest))
  }

  lemma {:induction false} EncodePeersLength(ps: seq<Peer>)
    ensures |EncodePeers(ps)| == 33 * |ps|
  {
    if ps != [] {
      EncodePeersLength(ps[1..]);
    }
  }

  /** A descriptor with n peers takes 4 + 33 n bytes. */
  lemma EncodeDescriptorLength(d: Descriptor)
    requires |d.peers| < U32_LIMIT
    ensures |EncodeDescriptor(d)| == 4 + 33 * |d.peers|
  {
    EncodePeersLength(d.peers);
  }

  lemma {:induction false} PeersRoundTrip(ps: seq<Peer>, rest: Bytes)
    ensures DecodePeers(EncodePeers(ps) + rest, |ps|) == Ok((ps, rest))
  {
    if ps == [] {
      assert EncodePeers(ps) + rest == rest;
    } else {
      var b := EncodePeers(ps) + rest;
      var tail := EncodePeers(ps[1..]) + rest;
      assert b == EncodePeer(ps[0]) + tail;
      assert b[..32] == ps[0].pubkey && b[32] == ps[0].status && b[33..] == tail;
      assert DecodePeer(b) == Ok((ps[0], tail));
      PeersRoundTrip(ps[1..], rest);
      assert DecodePeers(tail, |ps| - 1) == Ok((ps[1..], rest));
      assert DecodePeers(b, |ps|) == Ok(([ps[0]] + ps[1..], rest));
      assert [ps[0]] + ps[1..] == ps;
    }
  }

  /** Decoding an encoded descriptor returns the same peers in the same order, and the bytes after it. */
  lemma DescriptorRoundTrip(d: Descriptor, rest: Bytes)
    requires |d.peers| < U32_LIMIT
    ensures DecodeDescriptor(EncodeDescriptor(d) + rest) == Ok((d, rest))
  {
    var b := EncodeDescriptor(d) + rest;
    assert b == U32Le(|d.peers|) + (EncodePeers(d.peers) + rest);
    ReadWriteU32(|d.peers|, EncodePeers(d.peers) + rest);
    assert b[4..] == EncodePeers(d.peers) + rest;
    PeersRoundTrip(d.peers, rest);
  }

  lemma {:induction false} PeersDecodeEncode(b: Bytes, n: nat)
    requires DecodePeers(b, n).Ok?
    ensures var (ps, rest) := DecodePeers(b, n).value;
      |ps| == n && b == EncodePeers(ps) + rest
  {
    if n > 0 {
      var (p, r) := DecodePeer(b).value;
      PeersDecodeEncode(r, n - 1);
      var (ps, rest) := DecodePeers(r, n - 1).value;
      assert b == EncodePeer(p) + r;
      assert ([p] + ps)[1..] == ps;
    }
  }

  /** Whatever decodes is exactly the encoding of what it decoded to: the layout has one spelling. */
  lemma DescriptorDecodeEncode(b: Bytes)
    requires DecodeDescriptor(b).Ok?
    ensures var (d, rest) := DecodeDescriptor(b).value;
      |d.peers| < U32_LIMIT && b == EncodeDescriptor(d) + rest
  {
    var n := ReadU32Le(b);
    PeersDecodeEncode(b[4..], n);
    WriteReadU32(b[..4]);
    ReadU32Prefix(b, b[..4]);
    assert b == b[..4] + b[4..];
  }

  lemma {:induction false} PeersNeedBytes(b: Bytes, n: nat)
    ensures DecodePeers(b, n).Ok? <==> |b| >= 33 * n
  {
    if n > 0 {
      if |b| >= 33 {
        PeersNeedBytes(b[33..], n - 1);
      }
    }
  }

  /**
   * A descriptor decodes exactly when the buffer holds the count and all the
   * peers it announces; a buffer cut short, even mid-peer, fails.
   */
  lemma DescriptorDecodesIffLongEnough(b: Bytes)
    ensures DecodeDescriptor(b).Ok? <==> |b| >= 4 && |b| >= 4 + 33 * ReadU32Le(b)
  {
    if |b| >= 4 {
      PeersNeedBytes(b[4..], ReadU32Le(b));
    }
  }

  /** The status byte is taken as it is: a peer with status 7 decodes. */
  lemma StatusByteNotChecked(key: Key)
    ensures DecodeDescriptor([1, 0, 0, 0] + key + [7]) == Ok((Descriptor([Peer(key, 7)]), []))
  {
    DescriptorRoundTrip(Descriptor([Peer(key, 7)]), []);
    assert EncodeDescriptor(Descriptor([Peer(key, 7)])) + [] == [1, 0, 0, 0] + key + [7];
  }

  // ---------------------------------------------------------------- Message and Chat

  predicate MessageEncodable(m: MessageRecord) {
    |m.content| < U32_LIMIT
  }

  function EncodeMessage(m: MessageRecord): (b: Bytes)
    requires MessageEncodable(m)
    ensures |b| == 44 + |m.content|
  {
    m.sender + U32Le(|m.content|) + m.content + m.timestamp
  }

  /** Sender at 0..32, content length at 32..36, the content, then 8 timestamp bytes. */
  function DecodeMessage(b: Bytes): (r: Decoded<MessageRecord>)
  {
    if |b| < 36 then Err(BufferTooShort)
    else
      var len := ReadU32Le(b[32..]);
      if |b| < 44 + len then Err(BufferTooShort)
      else Ok((MessageRecord(b[..32], b[36..36 + len], b[36 + len..44 + len]), b[44 + len..]))
  }

  lemma MessageRoundTrip(m: MessageRecord, rest: Bytes)
    requires MessageEncodable(m)
    ensures DecodeMessage(EncodeMessage(m) + rest) == Ok((m, rest))
  {
    var len := |m.content|;
    var b := EncodeMessage(m) + rest;
    var tail := m.content + m.timestamp + rest;
    assert b == m.sender + (U32Le(len) + tail);
    assert b[32..] == U32Le(len) + tail;
    ReadWriteU32(len, tail);
    assert b[..32] == m.sender;
    assert b[36..] == tail;
    assert b[36..36 + len] == tail[..len] == m.content;
    assert b[36 + len..44 + len] == tail[len..len + 8] == m.timestamp;
    assert b[44 + len..] == tail[len + 8..] == rest;
  }

  lemma MessageDecodeEncode(b: Bytes)
    requires DecodeMessage(b).Ok?
    ensures var (m, rest) := DecodeMessage(b).value;
      MessageEncodable(m) && b == EncodeMessage(m) + rest
  {
    var len := ReadU32Le(b[32..]);
    var (m, rest) := DecodeMessage(b).value;
    WriteReadU32(b[32..36]);
    ReadU32Prefix(b[32..], b[32..36]);
    assert b[32..][..4] == b[32..36];
    assert b == b[..32] + b[32..36] + b[36..36 + len] + b[36 + len..44 + len] + b[44 + len..];
  }

  function EncodeMessages(ms: seq<MessageRecord>): (b: Bytes)
    requires forall i :: 0 <= i < |ms| ==> MessageEncodable(ms[i])
  {
    if ms == [] then [] else EncodeMessage(ms[0]) + EncodeMessages(ms[1..])
  }

  function DecodeMessages(b: Bytes, n: nat): (r: Decoded<seq<MessageRecord>>)
    decreases n
  {
    if n == 0 then Ok(([], b))
    else match DecodeMessage(b)
      case Err(e) => Err(e)
      case Ok((m, rest)) =>
        match DecodeMessages(rest, n - 1)
        case Err(e) => Err(e)
        case Ok((ms, rest')) => Ok(([m] + ms, rest'))
  }

  lemma {:induction false} MessagesRoundTrip(ms: seq<MessageRecord>, rest: Bytes)
    requires forall i :: 0 <= i < |ms| ==> MessageEncodable(ms[i])
    ensures DecodeMessages(EncodeMessages(ms) + rest, |ms|) == Ok((ms, rest))
  {
    if ms == [] {
      assert EncodeMessages(ms) + rest == rest;
    } else {
      var tail := EncodeMessages(ms[1..]) + rest;
      assert EncodeMessages(ms) + rest == EncodeMessage(ms[0]) + tail;
      MessageRoundTrip(ms[0], tail);
      MessagesRoundTrip(ms[1..], rest);
      assert DecodeMessages(tail, |ms| - 1) == Ok((ms[1..], rest));
      assert [ms[0]] + ms[1..] == ms;
    }
  }

  lemma {:induction false} MessagesDecodeEncode(b: Bytes, n: nat)
    requires DecodeMessages(b, n).Ok?
    ensures var (ms, rest) := DecodeMessages(b, n).value;
      |ms| == n && (forall i :: 0 <= i < |ms| ==> MessageEncodable(ms[i])) && b == EncodeMessages(ms) + rest
  {
    if n > 0 {
      var (m, r) := DecodeMessage(b).value;
      MessageDecodeEncode(b);
      MessagesDecodeEncode(r, n - 1);
      var (ms, rest) := DecodeMessages(r, n - 1).value;
      assert DecodeMessages(b, n) == Ok(([m] + ms, rest));
      assert b == EncodeMessage(m) + r;
      assert ([m] + ms)[0] == m && ([m] + ms)[1..] == ms;
      assert EncodeMessages([m] + ms) == EncodeMessage(m) + EncodeMessages(ms);
    }
  }

  predicate ChatEncodable(c: ChatRecord) {
    && |c.wallets| == 2
    && c.length < U32_LIMIT
    && |c.messages| < U32_LIMIT
    && forall i :: 0 <= i < |c.messages| ==> MessageEncodable(c.messages[i])
  }

  /** The fixed part of a chat: both wallets, the length field and the message count. */
  function ChatHeader(w0: Key, w1: Key, length: nat, n: nat): (b: Bytes)
    requires length < U32_LIMIT && n < U32_LIMIT
    ensures |b| == 72
  {
    var first: Bytes := w0;
    first + w1 + U32Le(length) + U32Le(n)
  }

  function EncodeChat(c: ChatRecord): (b: Bytes)
    requires ChatEncodable(c)
  {
    ChatHeader(c.wallets[0], c.wallets[1], c.length, |c.messages|) + EncodeMessages(c.messages)
  }

  /** Two wallets at 0..64, the length field at 64..68, the message count at 68..72, then the messages. */
  function DecodeChat(b: Bytes): (r: Decoded<ChatRecord>)
  {
    if |b| < 72 then Err(BufferTooShort)
    else match DecodeMessages(b[72..], ReadU32Le(b[68..]))
      case Err(e) => Err(e)
      case Ok((ms, rest)) => Ok((ChatRecord([b[..32], b[32..64]], ReadU32Le(b[64..]), ms), rest))
  }

  lemma ChatHeaderFields(w0: Key, w1: Key, length: nat, n: nat, body: Bytes)
    requires length < U32_LIMIT && n < U32_LIMIT
    ensures var b := ChatHeader(w0, w1, length, n) + body;
      b[..32] == w0 && b[32..64] == w1 && ReadU32Le(b[64..]) == length
      && ReadU32Le(b[68..]) == n && b[72..] == body
  {
    var b := ChatHeader(w0, w1, length, n) + body;
    var first: Bytes := w0;
    assert b == first + w1 + (U32Le(length) + (U32Le(n) + body));
    assert b[64..] == U32Le(length) + (U32Le(n) + body);
    ReadWriteU32(length, U32Le(n) + body);
    assert b[68..] == U32Le(n) + body;
    ReadWriteU32(n, body);
  }

  /** Decoding an encoded chat returns the same wallets, length field and messages. */
  lemma ChatRoundTrip(c: ChatRecord, rest: Bytes)
    requires ChatEncodable(c)
    ensures DecodeChat(EncodeChat(c) + rest) == Ok((c, rest))
  {
    var body := EncodeMessages(c.messages) + rest;
    var head := ChatHeader(c.wallets[0], c.wallets[1], c.length, |c.messages|);
    assert EncodeChat(c) + rest == head + body;
    MessagesRoundTrip(c.messages, rest);
    ChatHeaderFields(c.wallets[0], c.wallets[1], c.length, |c.messages|, body);
    assert [c.wallets[0], c.wallets[1]] == c.wallets;
  }

  /** Whatever decodes as a chat is exactly the encoding of the decoded record. */
  lemma ChatDecodeEncode(b: Bytes)
    requires DecodeChat(b).Ok?
    ensures var (c, rest) := DecodeChat(b).value;
      ChatEncodable(c) && b == EncodeChat(c) + rest
  {
    var (c, rest) := DecodeChat(b).value;
    var n := ReadU32Le(b[68..]);
    MessagesDecodeEncode(b[72..], n);
    var w0: Key := b[..32];
    var w1: Key := b[32..64];
    ChatHeaderFields(w0, w1, c.length, n, b[72..]);
    var h := ChatHeader(w0, w1, c.length, n);
    assert h == b[..72] by {
      assert (h + b[72..])[..72] == h;
      WriteReadU32(b[64..68]);
      WriteReadU32(b[68..72]);
      ReadU32Prefix(b[64..], b[64..68]);
      ReadU32Prefix(b[68..], b[68..72]);
      assert b[64..][..4] == b[64..68] && b[68..][..4] == b[68..72];
      var first: Bytes := w0;
      assert b[..72] == first + w1 + b[64..68] + b[68..72];
    }
    assert b == b[..72] + b[72..];
  }

  lemma {:induction false} MessagesNeedBytes(b: Bytes, n: nat)
    requires DecodeMessages(b, n).Ok?
    ensures |b| >= 44 * n
  {
    if n > 0 {
      var (m, r) := DecodeMessage(b).value;
      MessageDecodeEncode(b);
      MessagesNeedBytes(r, n - 1);
    }
  }

  /**
   * A chat decodes only from a buffer holding the two wallets, both u32
   * fields and at least 44 bytes per announced message: a truncated buffer fails.
   */
  lemma ChatNeedsBytes(b: Bytes)
    ensures DecodeChat(b).Ok? ==> |b| >= 72 && |b| >= 72 + 44 * ReadU32Le(b[68..])
  {
    if DecodeChat(b).Ok? {
      MessagesNeedBytes(b[72..], ReadU32Le(b[68..]));
    }
  }

  // ---------------------------------------------------------------- decoded views

  /** A message as the client exposes it; the timestamp in seconds. */
  datatype Message = Message(sender: Key, content: Bytes, timestamp: nat)

  datatype Chat = Chat(wallets: seq<Key>, length: nat, messages: seq<Message>)

  /** The little-endian u32 in timestamp bytes 0..3; bytes 4..7 are not read. */
  function TimestampSeconds(t: Bytes8): (secs: nat)
    ensures secs < U32_LIMIT
  {
    ReadU32Le(t[..4])
  }

  lemma TimestampIgnoresHighBytes(t: Bytes8, u: Bytes8)
    requires t[..4] == u[..4]
    ensures TimestampSeconds(t) == TimestampSeconds(u)
  {
  }

  /** A timestamp written as u32 seconds followed by any four bytes reads back as those seconds. */
  lemma TimestampRoundTrip(secs: nat, high: Bytes)
    requires secs < U32_LIMIT && |high| == 4
    ensures TimestampSeconds(U32Le(secs) + high) == secs
  {
    assert (U32Le(secs) + high)[..4] == U32Le(secs);
    ReadWriteU32(secs, []);
    assert U32Le(secs) + [] == U32Le(secs);
  }

  function ViewMessage(m: MessageRecord): (v: Message)
    ensures v.sender == m.sender && v.content == m.content
    ensures v.timestamp == TimestampSeconds(m.timestamp)
  {
    Message(m.sender, m.content, TimestampSeconds(m.timestamp))
  }

  function ViewMessages(ms: seq<MessageRecord>): (vs: seq<Message>)
    ensures |vs| == |ms|
    ensures forall i :: 0 <= i < |ms| ==> vs[i] == ViewMessage(ms[i])
  {
    seq(|ms|, i requires 0 <= i < |ms| => ViewMessage(ms[i]))
  }
}
