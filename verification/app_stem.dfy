/**
 * The web application's copy of the client helpers: the same derivations
 * and instruction layouts, but builders that take the wallet's (possibly
 * missing) key and check no client state, and decoders that take the
 * buffer as given.
 */
module AppStem {
  import opened Wrappers
  import opened Bytes
  import opened Derivation
  import opened Borsh
  import opened Instructions
  import opened StemClient

  /** `StemHelpers.getDescriptorPda`: a missing key derives nothing. */
  function GetDescriptorPda(c: Crypto, owner: Option<Key>): (r: Option<Key>)
    ensures r.Some? <==> owner.Some?
    ensures owner.Some? ==> r.value == DescriptorPda(c, owner.value)
  {
    match owner
    case None => None
    case Some(k) => Some(DescriptorPda(c, k))
  }

  /** `Stem.register`: refused only when the wallet has no key. */
  function Register(c: Crypto, wallet: Option<Key>): (r: Result<Transaction, StemError>)
    ensures r.Ok? <==> wallet.Some?
    ensures r.Err? ==> r.error == MissingWalletKey
    ensures r.Ok? ==> r.value.instructions == [RegisterIx(c, wallet.value)]
  {
    match GetDescriptorPda(c, wallet)
    case None => Err(MissingWalletKey)
    case Some(_) => Ok(Transaction([RegisterIx(c, wallet.value)]))
  }

  /** `Stem.invite`: no status or self check, unlike the client builder. */
  function Invite(c: Crypto, wallet: Option<Key>, invitee: Key): (r: Result<Transaction, StemError>)
    ensures r.Ok? <==> wallet.Some?
    ensures r.Err? ==> r.error == MissingWalletKey
    ensures r.Ok? ==> r.value.instructions == [InviteIx(c, wallet.value, invitee)]
  {
    if GetDescriptorPda(c, wallet).None? then Err(MissingWalletKey)
    else Ok(Transaction([InviteIx(c, wallet.value, invitee)]))
  }

  function Reject(c: Crypto, wallet: Option<Key>, peer: Key): (r: Result<Transaction, StemError>)
    ensures r.Ok? <==> wallet.Some?
    ensures r.Err? ==> r.error == MissingWalletKey
    ensures r.Ok? ==> r.value.instructions == [RejectIx(c, wallet.value, peer)]
  {
    if GetDescriptorPda(c, wallet).None? then Err(MissingWalletKey)
    else Ok(Transaction([RejectIx(c, wallet.value, peer)]))
  }

  function Accept(c: Crypto, wallet: Option<Key>, peer: Key): (r: Result<Transaction, StemError>)
    ensures r.Ok? <==> wallet.Some?
    ensures r.Err? ==> r.error == MissingWalletKey
    ensures r.Ok? ==> r.value.instructions == [AcceptIx(c, wallet.value, peer)]
  {
    if GetDescriptorPda(c, wallet).None? then Err(MissingWalletKey)
    else Ok(Transaction([AcceptIx(c, wallet.value, peer)]))
  }

  /** `Stem.sendMessage`: the chat address is derived first (a missing key fails there), then the length is written. */
  function SendMessage(c: Crypto, wallet: Option<Key>, peer: Key, content: string): (r: Result<Transaction, StemError>)
    ensures wallet.None? ==> r == Err(MissingWalletKey)
    ensures wallet.Some? ==> r == BuildSendMessage(c, wallet.value, peer, content)
  {
    match wallet
    case None => Err(MissingWalletKey)
    case Some(k) => BuildSendMessage(c, k, peer, content)
  }

  /** `deserializeDescriptor`: the buffer is decoded as given, with no tag skipped. */
  function DeserializeDescriptor(data: Bytes): (r: Result<Descriptor, StemError>)
    ensures r.Ok? <==> DecodeDescriptor(data).Ok?
    ensures r.Ok? ==> r.value == DecodeDescriptor(data).value.0
    ensures r.Err? ==> r.error == DecodeFailed
  {
    match DecodeDescriptor(data)
    case Err(_) => Err(DecodeFailed)
    case Ok((d, _)) => Ok(d)
  }

  /**
   * `deserializeChat`: decode as given, then rewrite each message's
   * timestamp to the seconds held in its low four bytes.
   */
  method DeserializeChat(data: Bytes) returns (r: Result<Chat, StemError>)
    ensures r == ChatView(data)
  {
    var decoded := DecodeChat(data);
    if decoded.Err? {
      return Err(DecodeFailed);
    }
    var rec := decoded.value.0;
    var messages: seq<Message> := [];
    for i := 0 to |rec.messages|
      invariant |messages| == i
      invariant forall j :: 0 <= j < i ==> messages[j] == ViewMessage(rec.messages[j])
    {
      messages := messages + [ViewMessage(rec.messages[i])];
    }
    assert messages == ViewMessages(rec.messages);
    return Ok(Chat(rec.wallets, rec.length, messages));
  }

  /**
   * Given a whole account buffer, the client decodes the body after the
   * tag, while `deserializeDescriptor` reads the tag's first four bytes
   * as the peer count.
   */
  lemma DescriptorTagHandling(tag: Bytes, body: Bytes)
    requires |tag| == 8
    ensures AccountBody(tag + body) == body
    ensures DeserializeDescriptor(tag + body).Ok? ==>
      |DeserializeDescriptor(tag + body).value.peers| == ReadU32Le(tag[..4])
  {
    AccountBodySkipsTag(tag, body);
    var data := tag + body;
    assert tag[..4][..4] == data[..4];
    ReadU32Prefix(tag[..4], data);
  }

  /** The client's chat parse is the app's chat decode applied after the tag. */
  lemma ParseChatIsDeserializeAfterTag(tag: Bytes, body: Bytes)
    requires |tag| == 8
    ensures ParseChat(tag + body) == ChatView(body)
  {
    AccountBodySkipsTag(tag, body);
  }

  /**
   * Wherever the client builder succeeds, the app builder given the same
   * wallet key builds the same transaction; the app builders also build
   * where the client refuses.
   */
  lemma AppAgreesWithClient(s: Stem, peer: Key, message: string)
    ensures s.CreateRegisterTx().Ok? ==> Register(s.crypto, Some(s.publicKey)) == s.CreateRegisterTx()
    ensures s.CreateInviteTx(peer).Ok? ==> Invite(s.crypto, Some(s.publicKey), peer) == s.CreateInviteTx(peer)
    ensures s.CreateAcceptTx(peer).Ok? ==> Accept(s.crypto, Some(s.publicKey), peer) == s.CreateAcceptTx(peer)
    ensures s.CreateRejectTx(peer).Ok? ==> Reject(s.crypto, Some(s.publicKey), peer) == s.CreateRejectTx(peer)
    ensures s.CreateSendMessageTx(peer, message).Ok? ==>
      SendMessage(s.crypto, Some(s.publicKey), peer, message) == s.CreateSendMessageTx(peer, message)
  {
  }
}
