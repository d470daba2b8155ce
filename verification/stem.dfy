/**
 * The client object for one wallet: it caches the wallet's descriptor
 * account, reconciles the peer map against it, reads chats, and builds
 * the program's transactions after checking its own state.
 */
module StemClient {
  import opened Wrappers
  import opened Bytes
  import opened Text
  import opened Derivation
  import opened Borsh
  import opened Solana
  import opened Instructions
  import opened PeerBooks
  import PeerStatus

  const INVITED: byte := PeerStatus.Code(PeerStatus.Invited)
  const REQUESTED: byte := PeerStatus.Code(PeerStatus.Requested)

  /** What the client emits: the peer map, the registration flag, or a parsed chat. */
  datatype StemEvent =
    | ChatsUpdated(book: PeerBook)
    | StatusUpdated(registered: bool)
    | ChatUpdated(peer: Key, chat: Chat)

  /** A decoded chat as the client shows it: wallets and length as stored, timestamps in seconds. */
  function ChatView(b: Bytes): (r: Result<Chat, StemError>)
    ensures r.Ok? <==> DecodeChat(b).Ok?
    ensures r.Err? ==> r.error == DecodeFailed
    ensures r.Ok? ==> var rec := DecodeChat(b).value.0;
      && r.value.wallets == rec.wallets && r.value.length == rec.length
      && |r.value.messages| == |rec.messages|
      && forall i :: 0 <= i < |rec.messages| ==> r.value.messages[i] == ViewMessage(rec.messages[i])
  {
    match DecodeChat(b)
    case Err(_) => Err(DecodeFailed)
    case Ok((rec, _)) => Ok(Chat(rec.wallets, rec.length, ViewMessages(rec.messages)))
  }

  /** `_parseChat`: drop the 8-byte account tag, then decode. */
  function ParseChat(data: Bytes): (r: Result<Chat, StemError>)
  {
    ChatView(AccountBody(data))
  }

  /** A chat account written by the program, tag and all, parses back to what was written. */
  lemma ParseChatRoundTrip(tag: Bytes, rec: ChatRecord)
    requires |tag| == 8 && ChatEncodable(rec)
    ensures ParseChat(tag + EncodeChat(rec)) == Ok(Chat(rec.wallets, rec.length, ViewMessages(rec.messages)))
  {
    AccountBodySkipsTag(tag, EncodeChat(rec));
    ChatRoundTrip(rec, []);
    assert EncodeChat(rec) + [] == EncodeChat(rec);
  }

  /**
   * The map after a descriptor is reconciled: untouched when the account
   * is not initialized, an error when its body does not decode, else the
   * loop over its peers with the "list changed" flag.
   */
  function ReconcileDescriptor(c: Crypto, self: Key, b: PeerBook, d: AccountState): (r: Result<(PeerBook, bool), StemError>)
    ensures !d.isInitialized ==> r == Ok((b, false))
    ensures d.isInitialized ==> (r.Ok? <==> DecodeDescriptor(AccountBody(d.data)).Ok?)
    ensures r.Err? ==> r.error == DecodeFailed
    ensures r.Ok? && d.isInitialized ==>
      r.value == ReconcilePeers(c, self, b, DecodeDescriptor(AccountBody(d.data)).value.0.peers)
  {
    if !d.isInitialized then Ok((b, false))
    else match DecodeDescriptor(AccountBody(d.data))
      case Err(_) => Err(DecodeFailed)
      case Ok((desc, _)) => Ok(ReconcilePeers(c, self, b, desc.peers))
  }

  /** The descriptor lists each peer once (vacuous when it is not initialized or does not decode). */
  predicate PeersListedOnce(d: AccountState)
  {
    d.isInitialized && DecodeDescriptor(AccountBody(d.data)).Ok? ==>
      DistinctKeys(DecodeDescriptor(AccountBody(d.data)).value.0.peers)
  }

  /** The events of one reconciliation pass, in emission order. */
  function Announce(listChanged: bool, book: PeerBook, statusChanged: bool, registered: bool): (es: seq<StemEvent>)
    ensures ChatsUpdated(book) in es <==> listChanged
    ensures StatusUpdated(registered) in es <==> statusChanged
    ensures |es| == (if listChanged then 1 else 0) + (if statusChanged then 1 else 0)
    ensures listChanged ==> es[0] == ChatsUpdated(book)
    ensures forall e :: e in es ==> e == ChatsUpdated(book) || e == StatusUpdated(registered)
  {
    (if listChanged then [ChatsUpdated(book)] else []) + (if statusChanged then [StatusUpdated(registered)] else [])
  }

  datatype PassResult = PassResult(result: Result<bool, StemError>, book: PeerBook, events: seq<StemEvent>)

  /**
   * One run of `_parseAndUpdatePeers` as a value: its return value (or the
   * decoding error it throws), the map it leaves, and what it emits.
   * A failed decode emits nothing and leaves the map as it was; the status
   * event fires exactly when the registration flag flips.
   */
  function Pass(c: Crypto, self: Key, b: PeerBook, wasRegistered: bool, d: AccountState): (p: PassResult)
    ensures p.result.Err? ==> p.book == b && p.events == [] && p.result.error == DecodeFailed
    ensures !d.isInitialized ==> p.result == Ok(false) && p.book == b
    ensures p.result.Ok? ==> (StatusUpdated(d.isInitialized) in p.events <==> wasRegistered != d.isInitialized)
    ensures p.result.Ok? ==> (ChatsUpdated(p.book) in p.events <==> p.result.value)
    ensures p.result.Ok? && !p.result.value ==> p.book == b
    ensures p.result.Ok? ==>
      |p.events| == (if p.result.value then 1 else 0) + (if wasRegistered != d.isInitialized then 1 else 0)
    ensures p.result.Ok? && p.result.value ==> p.events[0] == ChatsUpdated(p.book)
    ensures p.result.Ok? ==>
      forall e :: e in p.events ==> e == ChatsUpdated(p.book) || e == StatusUpdated(d.isInitialized)
  {
    match ReconcileDescriptor(c, self, b, d)
    case Err(e) => PassResult(Err(e), b, [])
    case Ok((nb, changed)) =>
      PassResult(Ok(changed), nb, Announce(changed, nb, wasRegistered != d.isInitialized, d.isInitialized))
  }

  /**
   * Running the pass a second time on the same descriptor is silent: same
   * map, no "list changed", no events. This is why a listener that fires
   * just before `init`'s own pass makes no difference to the map.
   */
  lemma SecondPassIsQuiet(c: Crypto, self: Key, b: PeerBook, wasRegistered: bool, d: AccountState)
    requires AccountsFollowStatus(c, self, b.entries) && PeersListedOnce(d)
    ensures var first := Pass(c, self, b, wasRegistered, d);
      var second := Pass(c, self, first.book, d.isInitialized, d);
      && second.book == first.book
      && second.events == []
      && (second.result.Ok? <==> first.result.Ok?)
      && (second.result.Ok? ==> !second.result.value)
  {
    if d.isInitialized && DecodeDescriptor(AccountBody(d.data)).Ok? {
      ReconcileIdempotent(c, self, b, DecodeDescriptor(AccountBody(d.data)).value.0.peers);
    }
  }

  /** The loop of `_parseAndUpdatePeers` over the decoded peers, setting map entries one peer at a time. */
  method ReconcileLoop(c: Crypto, self: Key, book: PeerBook, peers: seq<Peer>) returns (chats: PeerBook, listUpdated: bool)
    ensures (chats, listUpdated) == ReconcilePeers(c, self, book, peers)
  {
    chats, listUpdated := book, false;
    var i := 0;
    while i < |peers|
      invariant 0 <= i <= |peers|
      invariant (chats, listUpdated) == ReconcilePeers(c, self, book, peers[..i])
    {
      var peer := peers[i];
      var key := peer.pubkey;
      ghost var step := ReconcilePeer(c, self, chats, peer);
      ghost var before := listUpdated;
      var obj := Lookup(chats, key);
      if obj.None? {
        chats := Put(chats, key, PeerEntry(None, peer.status));
        listUpdated := true;
      }
      if peer.status == ACCEPTED && (obj.None? || obj.value.account.None?) {
        chats := Put(chats, key, PeerEntry(Some(NewChatAccount(c, self, key)), peer.status));
        listUpdated := true;
      } else if chats.entries[key].status != peer.status {
        chats := Put(chats, key, PeerEntry(None, peer.status));
        listUpdated := true;
      }
      assert chats == step.0 && listUpdated == (before || step.1);
      assert peers[..i + 1][..i] == peers[..i];
      i := i + 1;
    }
    assert peers[..i] == peers;
  }

  /**
   * What `init`'s reconciliation leaves: when a listener is already
   * attached, the fetch runs one pass and `init` a second; otherwise `init`
   * runs the only pass. Events accumulate in order.
   */
  function InitPasses(c: Crypto, self: Key, b: PeerBook, wasRegistered: bool, attached: bool, d: AccountState): (q: PassResult)
    ensures !attached ==> q == Pass(c, self, b, wasRegistered, d)
  {
    if !attached then Pass(c, self, b, wasRegistered, d)
    else
      var heard := Pass(c, self, b, wasRegistered, d);
      var own := Pass(c, self, heard.book, d.isInitialized, d);
      PassResult(own.result, own.book, heard.events + own.events)
  }

  /**
   * For a descriptor that lists each peer once, an already attached
   * listener makes no observable difference to `init`: the map, the events
   * and the outcome are those of a single pass.
   */
  lemma InitWhileListeningIsOnePass(c: Crypto, self: Key, b: PeerBook, wasRegistered: bool, d: AccountState)
    requires AccountsFollowStatus(c, self, b.entries) && PeersListedOnce(d)
    ensures var once := Pass(c, self, b, wasRegistered, d);
      var q := InitPasses(c, self, b, wasRegistered, true, d);
      q.book == once.book && q.events == once.events && (q.result.Ok? <==> once.result.Ok?)
  {
    SecondPassIsQuiet(c, self, b, wasRegistered, d);
    var once := Pass(c, self, b, wasRegistered, d);
    assert once.events + [] == once.events;
  }

  class Stem {
    const crypto: Crypto
    const publicKey: Key
    const subscribe: bool
    /** The wallet's descriptor account address. */
    const descriptorAddress: Key
    /** The last known state of the descriptor account. */
    var descriptor: AccountState
    var book: PeerBook
    var isRegistered: bool
    var isLoaded: bool
    /** Whether reconciliation is attached to descriptor updates (done by `init` when subscribing). */
    var listening: bool

    ghost predicate Valid()
      reads this
    {
      && descriptorAddress == DescriptorPda(crypto, publicKey)
      && WellOrdered(book)
      && AccountsFollowStatus(crypto, publicKey, book.entries)
      && (listening ==> subscribe)
    }

    constructor (publicKey: Key, crypto: Crypto, subscribe: bool)
      ensures Valid()
      ensures this.publicKey == publicKey && this.crypto == crypto && this.subscribe == subscribe
      ensures descriptor == EMPTY_ACCOUNT && book == EMPTY_BOOK
      ensures !isRegistered && !isLoaded && !listening
    {
      this.publicKey := publicKey;
      this.crypto := crypto;
      this.subscribe := subscribe;
      descriptorAddress := DescriptorPda(crypto, publicKey);
      descriptor := EMPTY_ACCOUNT;
      book := EMPTY_BOOK;
      isRegistered := false;
      isLoaded := false;
      listening := false;
    }

    /** `_parseAndUpdatePeers`: sets the registration flag from the descriptor, then reconciles the map. */
    method ParseAndUpdatePeers() returns (r: Result<bool, StemError>, events: seq<StemEvent>)
      requires Valid()
      modifies this
      ensures Valid()
      ensures descriptor == old(descriptor) && isLoaded == old(isLoaded) && listening == old(listening)
      ensures isRegistered == descriptor.isInitialized
      ensures PassResult(r, book, events) == Pass(crypto, publicKey, old(book), old(isRegistered), descriptor)
    {
      var statusUpdated := false;
      var listUpdated := false;
      if !descriptor.isInitialized {
        if isRegistered {
          statusUpdated := true;
        }
        isRegistered := false;
      } else {
        if !isRegistered {
          statusUpdated := true;
        }
        isRegistered := true;
      }

      if descriptor.isInitialized {
        var decoded := DecodeDescriptor(AccountBody(descriptor.data));
        if decoded.Err? {
          return Err(DecodeFailed), [];
        }
        var chats, changed := ReconcileLoop(crypto, publicKey, book, decoded.value.0.peers);
        ReconcileKeepsInvariants(crypto, publicKey, book, decoded.value.0.peers);
        book, listUpdated := chats, changed;
      }

      events := Announce(listUpdated, book, statusUpdated, isRegistered);
      r := Ok(listUpdated);
    }

    /**
     * `init`: the descriptor is fetched (`info` is what the lookup returned),
     * which also runs reconciliation when a listener is already attached;
     * then reconciliation runs; on success a subscribing client attaches the
     * listener and the client is loaded. A decode failure rejects `init`.
     */
    method Init(info: Option<AccountInfo>) returns (r: Result<(), StemError>, events: seq<StemEvent>)
      requires Valid()
      modifies this
      ensures Valid()
      ensures descriptor == AfterUpdate(info) && isRegistered == descriptor.isInitialized
      ensures var q := InitPasses(crypto, publicKey, old(book), old(isRegistered), old(listening), descriptor);
        book == q.book && events == q.events && (r.Ok? <==> q.result.Ok?)
      ensures r.Ok? ==> isLoaded && listening == (old(listening) || subscribe)
      ensures r.Err? ==> r.error == DecodeFailed && isLoaded == old(isLoaded) && listening == old(listening)
    {
      ghost var attached := listening;
      ghost var start, wasRegistered := book, isRegistered;
      var _, heard := DescriptorUpdated(info);
      ghost var mid, midRegistered := book, isRegistered;
      var res, own := ParseAndUpdatePeers();
      events := heard + own;
      ghost var second := Pass(crypto, publicKey, mid, midRegistered, descriptor);
      assert PassResult(res, book, own) == second;
      assert InitPasses(crypto, publicKey, start, wasRegistered, attached, descriptor) == PassResult(res, book, events) by {
        if attached {
          assert midRegistered == descriptor.isInitialized;
        } else {
          assert mid == start && midRegistered == wasRegistered && heard == [];
          assert events == own;
        }
      }
      if res.Err? {
        return Err(res.error), events;
      }
      if subscribe {
        listening := true;
      }
      isLoaded := true;
      r := Ok(());
    }

    /**
     * The descriptor account's `_update` followed by its "update" event: the
     * cached state is replaced and, once `init` attached it, reconciliation
     * runs. Both `fetch` and change notifications take this path.
     */
    method DescriptorUpdated(info: Option<AccountInfo>) returns (r: Option<Result<bool, StemError>>, events: seq<StemEvent>)
      requires Valid()
      modifies this
      ensures Valid()
      ensures descriptor == AfterUpdate(info) && isLoaded == old(isLoaded) && listening == old(listening)
      ensures r.Some? <==> listening
      ensures listening ==> (isRegistered == descriptor.isInitialized &&
        PassResult(r.value, book, events) == Pass(crypto, publicKey, old(book), old(isRegistered), descriptor))
      ensures !listening ==> book == old(book) && isRegistered == old(isRegistered) && events == []
    {
      descriptor := AfterUpdate(info);
      if listening {
        var res, es := ParseAndUpdatePeers();
        r, events := Some(res), es;
      } else {
        r, events := None, [];
      }
    }

    /**
     * The peer's chat account answered a fetch or a notification: its state
     * is refreshed in place. On a subscribing client the account's listener
     * then parses the chat (`r` is its outcome): a chat that decodes is
     * emitted, and one that does not makes the listener reject before
     * anything is emitted. A peer without a chat account in the map is not
     * affected and no listener runs.
     */
    method OnChatAccountChange(peer: Key, info: Option<AccountInfo>) returns (r: Option<Result<Chat, StemError>>, events: seq<StemEvent>)
      requires Valid()
      modifies this
      ensures Valid()
      ensures descriptor == old(descriptor) && isRegistered == old(isRegistered)
      ensures isLoaded == old(isLoaded) && listening == old(listening)
      ensures book.order == old(book.order) && book.entries.Keys == old(book.entries.Keys)
      ensures forall k :: k in book.entries && k != peer ==> book.entries[k] == old(book.entries[k])
      ensures peer in old(book.entries) && old(book.entries[peer].account.Some?) ==>
        && book.entries[peer].status == old(book.entries[peer].status)
        && book.entries[peer].account == Some(ChatAccount(old(book.entries[peer].account.value.address), AfterUpdate(info)))
      ensures !(peer in old(book.entries) && old(book.entries[peer].account.Some?)) ==> book == old(book)
      ensures r.Some? <==> subscribe && peer in old(book.entries) && old(book.entries[peer].account.Some?)
      ensures r.Some? ==> r.value == ParseChat(AfterUpdate(info).data)
      ensures events == (if r.Some? && r.value.Ok? then [ChatUpdated(peer, r.value.value)] else [])
    {
      var found := Lookup(book, peer);
      r, events := None, [];
      if found.Some? && found.value.account.Some? {
        var account := found.value.account.value;
        var state := AfterUpdate(info);
        book := Put(book, peer, PeerEntry(Some(ChatAccount(account.address, state)), found.value.status));
        if subscribe {
          var chat := ParseChat(state.data);
          r := Some(chat);
          if chat.Ok? {
            events := [ChatUpdated(peer, chat.value)];
          }
        }
      }
    }

    /** The `isRegistered` getter: refused before `init` completes. */
    function IsRegistered(): (r: Result<bool, StemError>)
      reads this
      ensures r.Ok? <==> isLoaded
      ensures r.Err? ==> r.error == NotLoaded
      ensures r.Ok? ==> r.value == isRegistered
    {
      if !isLoaded then Err(NotLoaded) else Ok(isRegistered)
    }

    /** The status the map holds for a peer, if any. */
    function StatusOf(k: Key): Option<byte>
      reads this
    {
      if k in book.entries then Some(book.entries[k].status) else None
    }

    /** The `chats` getter: every peer in the map once, in insertion order, with its status. */
    function Chats(): (r: seq<(Key, byte)>)
      reads this
      requires Valid()
      ensures |r| == |book.order|
      ensures forall i :: 0 <= i < |r| ==> r[i].0 == book.order[i]
      ensures forall i, j :: 0 <= i < j < |r| ==> r[i].0 != r[j].0
      ensures forall i :: 0 <= i < |r| ==> StatusOf(r[i].0) == Some(r[i].1)
    {
      var order, entries := book.order, book.entries;
      assert forall i :: 0 <= i < |order| ==> order[i] in entries;
      seq(|order|, i requires 0 <= i < |order| => (order[i], entries[order[i]].status))
    }

    /**
     * `getChat`: refused unless loaded and registered; nothing for a peer
     * that is unknown or has no chat account; else the parsed chat.
     */
    function GetChat(peer: Key): (r: Result<Option<Chat>, StemError>)
      reads this
      ensures !isLoaded ==> r == Err(NotLoaded)
      ensures isLoaded && !isRegistered ==> r == Err(NotRegistered)
      ensures isLoaded && isRegistered && (peer !in book.entries || book.entries[peer].account.None?) ==> r == Ok(None)
      ensures isLoaded && isRegistered && peer in book.entries && book.entries[peer].account.Some? ==>
        match ParseChat(book.entries[peer].account.value.state.data)
        case Ok(chat) => r == Ok(Some(chat))
        case Err(e) => r == Err(e)
    {
      if !isLoaded then Err(NotLoaded)
      else if !isRegistered then Err(NotRegistered)
      else if peer !in book.entries then Ok(None)
      else match book.entries[peer].account
        case None => Ok(None)
        case Some(account) =>
          match ParseChat(account.state.data)
          case Ok(chat) => Ok(Some(chat))
          case Err(e) => Err(e)
    }

    /** `createRegisterTx`: loaded and not yet registered, else refused. */
    function CreateRegisterTx(): (r: Result<Transaction, StemError>)
      reads this
      ensures r.Ok? <==> isLoaded && !isRegistered
      ensures !isLoaded ==> r == Err(NotLoaded)
      ensures isLoaded && isRegistered ==> r == Err(AlreadyRegistered)
      ensures r.Ok? ==> r.value.instructions == [RegisterIx(crypto, publicKey)]
    {
      if !isLoaded then Err(NotLoaded)
      else if isRegistered then Err(AlreadyRegistered)
      else Ok(Transaction([RegisterIx(crypto, publicKey)]))
    }

    /**
     * `createInviteTx`: the status check is a truthiness test, so only a
     * nonzero status refuses; an entry still at Invited (0) lets a new
     * invitation through. Inviting oneself is checked last.
     */
    function CreateInviteTx(invitee: Key): (r: Result<Transaction, StemError>)
      reads this
      ensures r.Ok? <==> isLoaded && isRegistered && StatusOf(invitee) in {None, Some(INVITED)} && invitee != publicKey
      ensures !isLoaded ==> r == Err(NotLoaded)
      ensures isLoaded && !isRegistered ==> r == Err(NotRegistered)
      ensures isLoaded && isRegistered && StatusOf(invitee) !in {None, Some(INVITED)} ==> r == Err(AlreadyInvited)
      ensures isLoaded && isRegistered && StatusOf(invitee) in {None, Some(INVITED)} && invitee == publicKey ==> r == Err(SelfInvite)
      ensures r.Ok? ==> r.value.instructions == [InviteIx(crypto, publicKey, invitee)]
    {
      if !isLoaded then Err(NotLoaded)
      else if !isRegistered then Err(NotRegistered)
      else if invitee in book.entries && book.entries[invitee].status != 0 then Err(AlreadyInvited)
      else if publicKey == invitee then Err(SelfInvite)
      else Ok(Transaction([InviteIx(crypto, publicKey, invitee)]))
    }

    /** The shared precondition of accept and reject: the peer has requested. */
    function CheckRequested(invitee: Key): (r: Option<StemError>)
      reads this
      ensures r.None? <==> isLoaded && isRegistered && StatusOf(invitee) == Some(REQUESTED) && invitee != publicKey
      ensures !isLoaded ==> r == Some(NotLoaded)
      ensures isLoaded && !isRegistered ==> r == Some(NotRegistered)
      ensures isLoaded && isRegistered && StatusOf(invitee) != Some(REQUESTED) ==> r == Some(NotInvited)
      ensures isLoaded && isRegistered && StatusOf(invitee) == Some(REQUESTED) && invitee == publicKey ==> r == Some(SelfInvite)
    {
      if !isLoaded then Some(NotLoaded)
      else if !isRegistered then Some(NotRegistered)
      else if StatusOf(invitee) != Some(1) then Some(NotInvited)
      else if publicKey == invitee then Some(SelfInvite)
      else None
    }

    /** `createAcceptTx`: only for a peer whose status is Requested. */
    function CreateAcceptTx(invitee: Key): (r: Result<Transaction, StemError>)
      reads this
      ensures r.Err? <==> CheckRequested(invitee).Some?
      ensures r.Err? ==> r.error == CheckRequested(invitee).value
      ensures r.Ok? ==> r.value.instructions == [AcceptIx(crypto, publicKey, invitee)]
    {
      match CheckRequested(invitee)
      case Some(e) => Err(e)
      case None => Ok(Transaction([AcceptIx(crypto, publicKey, invitee)]))
    }

    /** `createRejectTx`: the same checks as accept. */
    function CreateRejectTx(invitee: Key): (r: Result<Transaction, StemError>)
      reads this
      ensures r.Err? <==> CheckRequested(invitee).Some?
      ensures r.Err? ==> r.error == CheckRequested(invitee).value
      ensures r.Ok? ==> r.value.instructions == [RejectIx(crypto, publicKey, invitee)]
    {
      match CheckRequested(invitee)
      case Some(e) => Err(e)
      case None => Ok(Transaction([RejectIx(crypto, publicKey, invitee)]))
    }

    /**
     * `createSendMessageTx`: only to an Accepted peer; the length field must
     * fit in a u32. There is no self check here.
     */
    function CreateSendMessageTx(invitee: Key, message: string): (r: Result<Transaction, StemError>)
      reads this
      ensures r.Ok? <==> isLoaded && isRegistered && StatusOf(invitee) == Some(ACCEPTED) && Utf16Length(message) < U32_LIMIT
      ensures !isLoaded ==> r == Err(NotLoaded)
      ensures isLoaded && !isRegistered ==> r == Err(NotRegistered)
      ensures isLoaded && isRegistered && StatusOf(invitee) != Some(ACCEPTED) ==> r == Err(NotInvited)
      ensures isLoaded && isRegistered && StatusOf(invitee) == Some(ACCEPTED) && Utf16Length(message) >= U32_LIMIT ==> r == Err(LengthOutOfRange)
      ensures r.Ok? ==> r.value.instructions == [SendMessageIx(crypto, publicKey, invitee, message)]
    {
      if !isLoaded then Err(NotLoaded)
      else if !isRegistered then Err(NotRegistered)
      else if StatusOf(invitee) != Some(2) then Err(NotInvited)
      else BuildSendMessage(crypto, publicKey, invitee, message)
    }
  }

  /** Every peer the map holds appears in `chats`. */
  lemma ChatsListsEveryPeer(s: Stem, k: Key)
    requires s.Valid() && k in s.book.entries
    ensures exists i :: 0 <= i < |s.Chats()| && s.Chats()[i].0 == k
  {
    var i :| 0 <= i < |s.book.order| && s.book.order[i] == k;
    assert s.Chats()[i].0 == k;
  }

  /**
   * The builders only ask for moves of the documented diagram: accept and
   * reject leave the invitee's starting status, and invite is refused once
   * a peer has left the inviter's starting status.
   */
  lemma BuildersFollowDiagram(s: Stem, peer: Key)
    ensures s.CreateAcceptTx(peer).Ok? ==>
      && PeerStatus.FromCode(s.StatusOf(peer).value) == Some(PeerStatus.Initial(PeerStatus.Invitee))
      && PeerStatus.Step(PeerStatus.Invitee, PeerStatus.Initial(PeerStatus.Invitee), PeerStatus.Accepted)
    ensures s.CreateRejectTx(peer).Ok? ==>
      && PeerStatus.FromCode(s.StatusOf(peer).value) == Some(PeerStatus.Initial(PeerStatus.Invitee))
      && PeerStatus.Step(PeerStatus.Invitee, PeerStatus.Initial(PeerStatus.Invitee), PeerStatus.Rejected)
    ensures s.CreateInviteTx(peer).Ok? && s.StatusOf(peer).Some? ==>
      PeerStatus.FromCode(s.StatusOf(peer).value) == Some(PeerStatus.Initial(PeerStatus.Inviter))
  {
  }

  /**
   * A message transaction writes to the very chat account the client
   * tracks for that peer: an Accepted entry always holds one, at the
   * address the instruction names.
   */
  lemma SendTargetsTrackedChat(s: Stem, peer: Key, message: string)
    requires s.Valid() && s.CreateSendMessageTx(peer, message).Ok?
    ensures peer in s.book.entries && s.book.entries[peer].account.Some?
    ensures var ix := s.CreateSendMessageTx(peer, message).value.instructions[0];
      ix.keys[1].pubkey == s.book.entries[peer].account.value.address && ix.keys[1].isWritable
  {
  }
}
