# stem-sdk in Dafny

This project models the client side of Stem, a wallet-to-wallet chat
protocol on Solana. The model covers six parts:

- **Addresses.** A wallet's *descriptor* account and the *chat* account
  two wallets share are program-derived addresses (PDAs). The chat
  address comes from the SHA-256 of the two keys, ordered byte by byte,
  so both peers derive the same one.
- **Account formats.** The descriptor account holds a Borsh-encoded
  `peers` list of `(pubkey, status)` pairs. The chat account holds
  `wallets`, `length` and `messages`. Both sit after an 8-byte account
  tag.
- **Peer statuses.** A status is `Invited`, `Requested`, `Accepted` or
  `Rejected`, stored as the bytes 0 to 3. The status moves along a
  documented diagram: an inviter goes from Invited and an invitee from
  Requested, each to Accepted or Rejected.
- **The `Stem` client object.** It caches its descriptor account. It
  reconciles an insertion-ordered peer map against that account and
  creates a chat account object for each Accepted peer. It emits
  "chats updated", "status updated" and "chat updated" events. It
  builds the program's `register`, `invite`, `accept`, `reject` and
  `sendmessage` transactions, each after checking its own state.
- **The app's helper copy.** It derives the same addresses and builds
  the same instruction layouts. Its builders take the wallet's key,
  which may be missing, and check nothing else. Its decoders read the
  buffer as given, without skipping the tag.
- **Cached objects.** The `Account` and `Signature` objects are modelled
  through their `_update` step.

Modules, one file each:

- `Bytes`: bytes and little-endian u32.
- `Text`: UTF-16 length and UTF-8 encoding of strings.
- `PeerStatus`: the enum, its name table and the diagram.
- `Derivation`: discriminators, the chat hash and the PDAs.
- `Borsh`: the account codec.
- `Solana`: the `Account` and `Signature` classes.
- `Instructions`: the instruction layouts and key lists.
- `PeerBooks`: the peer map and its reconciliation.
- `StemClient`: the `Stem` class.
- `AppStem`: the app's helpers.

SHA-256 and `findProgramAddressSync` appear as the two functions of a
`Crypto` value. The client holds one, and every derivation takes one.
Nothing is assumed about them except that they return 32 bytes. Events
are returned as a sequence rather than sent to listeners. RPC results
arrive as `Option<AccountInfo>` parameters.

The model keeps these behaviours of the code:

- **The `createInviteTx` status guard is a truthiness test.** A peer
  whose status byte is 0 (Invited) can be invited again. Only a nonzero
  status refuses.
- **The `sendmessage` length field and the payload count different
  units.** The field holds the message's UTF-16 length, while the
  payload holds its UTF-8 bytes. The two agree on ASCII. For "é" a
  reader that trusts the field gets only the first byte (0xC3).
- **The status byte is not checked on decode.** Any byte decodes as a
  peer status.
- **The app's `deserializeDescriptor` does not skip the 8-byte tag.**
  Given a whole account buffer, it reads the tag's first four bytes as
  the peer count.
- **Timestamps keep their low four bytes.** A message timestamp is read
  from the low four bytes of its 8-byte field, in seconds.

`src/stem.ts` imports `./const`, `./schemas` and `./events`. Those
files are not part of this model. The constants are taken from
`app/src/utils/const.ts`. The descriptor schema is taken from
`app/src/utils/schemas.ts`. The chat and message schemas are taken
from `app/src/utils/stem.ts`.

## Model

| member | source | states |
|---|---|---|
| Bytes.Subarray | src/stem.ts:20 | `subarray` clamps both ends to the buffer: the exact slice when in range, the whole tail when the end lies past the buffer, empty when the start lies past the buffer or past the end |
| Bytes.Zeros | src/stem.ts:30 | `Buffer.alloc(n)` has length n and is all zero |
| Bytes.U32Le | src/stem.ts:505-506 | `writeUInt32LE`: a value below 2^32 becomes 4 bytes, least significant first; `ReadWriteU32` and `WriteReadU32` make it the inverse of `ReadU32Le` |
| Bytes.ReadU32Le | src/stem.ts:229 | `readUint32LE` of the first four bytes, always below 2^32 |
| Bytes.ReadWriteU32 | src/stem.ts:505-506 | reading back a u32 written little-endian gives the number, whatever follows it |
| Bytes.WriteReadU32 | src/stem.ts:229 | every 4-byte buffer is the little-endian encoding of the number read from it |
| Text.Utf16Length | src/stem.ts:506 | a string's `length` in UTF-16 units lies between its code-point count and twice that |
| Text.Utf8 | src/stem.ts:531 | `Buffer.from(message)` is one to four bytes per code point |
| Text.AsciiLengthsAgree | src/stem.ts:505-531 | for ASCII text the UTF-16 length, the UTF-8 byte count and the character count agree, and each byte is the character's code |
| Text.LengthsDisagreeBeyondAscii | src/stem.ts:505-531 | for "é" the UTF-16 length is 1 but the UTF-8 encoding has 2 bytes |
| PeerStatus.Code | src/types.ts:19-24 | every status has a code below 4 |
| PeerStatus.FromCode | src/types.ts:19-24 | a byte names a status exactly when it is below 4, and then it is that status's code |
| PeerStatus.CodeRoundTrip | src/types.ts:19-24 | mapping a status to its code and back gives the status |
| PeerStatus.Name | app/src/utils/stem.ts:172-181 | the status names of `PeerState`, one per status; `NameTableRoundTrip` ties them to the codes |
| PeerStatus.CodeOfName | app/src/utils/stem.ts:173-176 | the name-to-code half of `PeerState`, nothing for any other string |
| PeerStatus.NameOfCode | app/src/utils/stem.ts:177-180 | the code-to-name half of `PeerState`, nothing for codes above 3 |
| PeerStatus.NameTableRoundTrip | app/src/utils/stem.ts:172-181 | `PeerState` maps each status name to its code and each code back to its name |
| PeerStatus.CodeTableRoundTrip | app/src/utils/stem.ts:172-181 | every code below 4 has a name in `PeerState` that maps back to the code |
| PeerStatus.Initial | src/types.ts:3-17 | each side starts in a non-terminal status |
| PeerStatus.Step | src/types.ts:3-17 | the status-transition relation of the diagram, per side; `InviterSteps`, `InviteeSteps` and `TerminalStates` enumerate it |
| PeerStatus.TerminalStates | src/types.ts:3-17 | Accepted and Rejected have no outgoing move |
| PeerStatus.InviterSteps | src/types.ts:4-9 | an inviter's moves are exactly Invited to Accepted and Invited to Rejected |
| PeerStatus.InviteeSteps | src/types.ts:11-16 | an invitee's moves are exactly Requested to Accepted and Requested to Rejected |
| PeerStatus.PathsTakeAtMostOneStep | src/types.ts:3-17 | every path in the diagram has at most two statuses, and a two-status path runs from the side's initial status to a terminal one |
| Derivation.Disc | src/stem.ts:19-20 | the discriminator is 8 bytes and a prefix of the SHA-256 of "global:" + name; `disc` in app/src/utils/stem.ts:109-110 is the same function |
| Derivation.DescriptorPda | src/stem.ts:22-28 | the program address for the seeds "wallet_descriptor" and the owner's key under the program id; `AppStem.GetDescriptorPda` is the app's version with a key present |
| Derivation.FirstDiff | src/stem.ts:31-43 | the loop stops at the first index where the keys differ, or at 32 when they are equal |
| Derivation.ChatPreimage | src/stem.ts:30-43 | the hashed buffer is 64 bytes |
| Derivation.FillChatPreimage | src/stem.ts:30-43 | the array the loop fills equals the ordered preimage |
| Derivation.GetChatHash | src/stem.ts:29-46 | the method returns the chat hash of the two keys |
| Derivation.ChatHash | src/stem.ts:29-46 | SHA-256 of the ordered preimage; `GetChatHash` computes it by the loop, and `ChatHashSymmetric` makes it independent of the key order; `getChatHash` in app/src/utils/stem.ts:78-95 is the same function |
| Derivation.ChatPda | src/stem.ts:47-53 | the program address for the seeds "privite_chat" and the chat hash (by `Bytes.Subarray`, `subarray(0, 64)` of the 32-byte hash is the whole hash); `ChatPdaSymmetric` makes it shared by both peers; `getChatPda` in app/src/utils/stem.ts:96-106 is the same function |
| Derivation.LexLessAtFirstDiff | src/stem.ts:31-43 | comparing at the first differing byte decides the byte-wise order of the keys |
| Derivation.FirstDiffSymmetric | src/stem.ts:31-43 | the first differing index does not depend on the order of the keys |
| Derivation.ChatPreimageOrdered | src/stem.ts:30-43 | the preimage is the smaller key then the larger one, and 64 zero bytes when the keys are equal |
| Derivation.ChatPreimageSymmetric | src/stem.ts:30-43 | both peers build the same preimage |
| Derivation.ChatPreimageInjective | src/stem.ts:30-43 | distinct pairs of distinct keys give distinct preimages |
| Derivation.ChatHashSymmetric | src/stem.ts:29-46 | both peers compute the same chat hash |
| Derivation.ChatPdaSymmetric | src/stem.ts:47-53 | both peers derive the same chat account address |
| Borsh.AccountBody | src/stem.ts:126 | `subarray(8)` is what follows the 8-byte tag, and empty for shorter data |
| Borsh.AccountBodySkipsTag | src/stem.ts:124-127 | dropping the tag of tag + body gives the body |
| Borsh.EncodePeer | app/src/utils/schemas.ts:7-17 | a peer is 33 bytes |
| Borsh.DecodePeer | app/src/utils/schemas.ts:7-17 | a peer decodes exactly when 33 bytes are available |
| Borsh.EncodePeers | app/src/utils/schemas.ts:19-23 | the peers one after another, without the count; `PeersRoundTrip` and `PeersDecodeEncode` make it the inverse of `DecodePeers` |
| Borsh.DecodePeers | app/src/utils/schemas.ts:19-23 | a successful decode yields as many peers as asked for |
| Borsh.DecodeDescriptor | app/src/utils/schemas.ts:19-23 | a successful decode yields as many peers as the u32 prefix says |
| Borsh.EncodeDescriptor | app/src/utils/schemas.ts:19-23 | the u32 peer count, then the peers; `DescriptorRoundTrip` and `DescriptorDecodeEncode` make it the inverse of `DecodeDescriptor` |
| Borsh.EncodePeersLength | app/src/utils/schemas.ts:7-23 | n peers take 33·n bytes |
| Borsh.EncodeDescriptorLength | app/src/utils/schemas.ts:19-23 | a descriptor takes 4 + 33·n bytes |
| Borsh.PeersRoundTrip | app/src/utils/schemas.ts:7-23 | decoding encoded peers gives them back, with the rest untouched |
| Borsh.DescriptorRoundTrip | app/src/utils/schemas.ts:19-23 | decoding an encoded descriptor gives it back, with the rest untouched |
| Borsh.PeersDecodeEncode | app/src/utils/schemas.ts:7-23 | whatever decodes as peers is their encoding followed by the rest |
| Borsh.DescriptorDecodeEncode | app/src/utils/schemas.ts:19-23 | whatever decodes as a descriptor is its encoding followed by the rest |
| Borsh.PeersNeedBytes | app/src/utils/schemas.ts:7-23 | n peers decode exactly when 33·n bytes are available |
| Borsh.DescriptorDecodesIffLongEnough | app/src/utils/schemas.ts:19-23 | a descriptor decodes exactly when the count fits and 33 bytes per announced peer follow |
| Borsh.StatusByteNotChecked | app/src/utils/schemas.ts:15 | a status byte of 7 decodes without error |
| Borsh.EncodeMessage | app/src/utils/stem.ts:134-150 | a message is 44 bytes plus its content |
| Borsh.EncodeMessages | app/src/utils/stem.ts:156 | the reference encoder of the message vector: the messages' encodings one after another, without the count; `MessagesRoundTrip` and `MessagesDecodeEncode` pair it with `DecodeMessages` |
| Borsh.DecodeMessage | app/src/utils/stem.ts:134-150 | sender, u32-prefixed content and 8 timestamp bytes, failing on short input; `MessageRoundTrip` and `MessageDecodeEncode` pair it with `EncodeMessage` |
| Borsh.DecodeMessages | app/src/utils/stem.ts:156 | n messages in order; `MessagesRoundTrip` and `MessagesDecodeEncode` pair it with `EncodeMessages` |
| Borsh.MessageRoundTrip | app/src/utils/stem.ts:134-150 | decoding an encoded message gives it back |
| Borsh.MessageDecodeEncode | app/src/utils/stem.ts:134-150 | whatever decodes as a message is its encoding followed by the rest |
| Borsh.MessagesRoundTrip | app/src/utils/stem.ts:152-158 | decoding encoded messages gives them back |
| Borsh.MessagesDecodeEncode | app/src/utils/stem.ts:152-158 | whatever decodes as messages is their encoding followed by the rest |
| Borsh.ChatHeader | app/src/utils/stem.ts:152-158 | the two wallets, the length and the message count take 72 bytes |
| Borsh.EncodeChat | app/src/utils/stem.ts:152-158 | the two wallets, the u32 length, the u32 message count and the messages |
| Borsh.DecodeChat | app/src/utils/stem.ts:152-158 | reads the header then the announced messages; `ChatRoundTrip` and `ChatDecodeEncode` pair it with `EncodeChat`, and `ChatNeedsBytes` bounds the input it accepts |
| Borsh.ChatHeaderFields | app/src/utils/stem.ts:152-158 | the header's fields are read back at offsets 0, 32, 64 and 68 |
| Borsh.ChatRoundTrip | app/src/utils/stem.ts:152-158 | decoding an encoded chat gives it back |
| Borsh.ChatDecodeEncode | app/src/utils/stem.ts:152-158 | whatever decodes as a chat is its encoding followed by the rest |
| Borsh.MessagesNeedBytes | app/src/utils/stem.ts:152-158 | n messages need at least 44·n bytes |
| Borsh.ChatNeedsBytes | app/src/utils/stem.ts:152-158 | a chat decodes only if the header and 44 bytes per announced message are there |
| Borsh.TimestampSeconds | src/stem.ts:228-230 | the seconds read from a timestamp fit in a u32 |
| Borsh.TimestampIgnoresHighBytes | src/stem.ts:228-230 | only the first four timestamp bytes matter |
| Borsh.TimestampRoundTrip | src/stem.ts:228-230 | the seconds written little-endian in the low half are read back |
| Borsh.ViewMessage | src/stem.ts:225-231 | the shown message keeps the sender and the content and converts the timestamp to seconds |
| Borsh.ViewMessages | src/stem.ts:225-231 | every message is converted, in order |
| Solana.AfterUpdate | src/solana.ts:74-87 | a missing account is cleared; otherwise it is initialized, with lamports and data taken from the info (0 and empty when absent) |
| Solana.Account.constructor | src/solana.ts:29-52 | a new account is uninitialized, with 0 lamports and empty data |
| Solana.Account.Update | src/solana.ts:74-87 | `_update` leaves the state that `AfterUpdate` describes |
| Solana.AfterSignatureUpdate | src/solana.ts:203-213 | a missing status changes nothing; otherwise the five reported fields are copied and the initialization flag is kept |
| Solana.Signature.constructor | src/solana.ts:160-173 | a new signature has slot 0, no confirmations, error or status, commitment "processed", and is uninitialized |
| Solana.Signature.Update | src/solana.ts:203-213 | `_update` leaves the state that `AfterSignatureUpdate` describes |
| Instructions.BuildSendMessage | src/stem.ts:505-536 | the transaction is built exactly when the UTF-16 length fits in a u32; otherwise the write fails with a range error |
| Instructions.RegisterKeys | src/stem.ts:280-296 | the descriptor (writable), the owner (signer) and the system program, in that order; roles stated by `RegisterKeyRoles` |
| Instructions.RegisterIx | src/stem.ts:278-298 | the register instruction: program id, `RegisterKeys`, the "register" discriminator |
| Instructions.InviteKeys | src/stem.ts:329-355 | caller (signer), invitee, both descriptors (writable), system program; roles stated by `InviteRejectKeyRoles` |
| Instructions.InviteIx | src/stem.ts:327-357 | the invite instruction: program id, `InviteKeys`, the "invite" discriminator |
| Instructions.RejectKeys | src/stem.ts:461-482 | caller (signer), peer, both descriptors (writable), and no system program; roles stated by `InviteRejectKeyRoles` |
| Instructions.RejectIx | src/stem.ts:459-484 | the reject instruction: program id, `RejectKeys`, the "reject" discriminator |
| Instructions.AcceptKeys | src/stem.ts:391-422 | caller (signer), peer, both descriptors and the chat account (writable), system program; roles stated by `AcceptKeyRoles` |
| Instructions.AcceptIx | src/stem.ts:389-427 | the accept instruction: the "accept" discriminator followed by the chat hash (`PayloadLayouts`, `AcceptNamesSharedChat`) |
| Instructions.SendMessageKeys | src/stem.ts:510-526 | caller (signer), chat account (writable), system program; roles stated by `SendMessageKeyRoles` |
| Instructions.SendMessageIx | src/stem.ts:508-533 | the send instruction: discriminator, chat hash, u32 UTF-16 length, UTF-8 bytes (`SendMessageLayout`) |
| Instructions.PayloadLayouts | src/stem.ts:278-488 | register, invite and reject carry only their 8-byte discriminator; accept carries its discriminator followed by the chat hash (40 bytes) |
| Instructions.AcceptNamesSharedChat | src/stem.ts:412-426 | the accept payload and its fifth key name the chat both peers derive |
| Instructions.SendMessageLayout | src/stem.ts:505-533 | the payload is the discriminator, the chat hash, the u32 UTF-16 length and the UTF-8 bytes, at offsets 0, 8, 40 and 44 |
| Instructions.ReadSendMessageData | src/stem.ts:527-532 | a reader that trusts the length field succeeds exactly when that many bytes follow the 44-byte header |
| Instructions.SendMessageReadsBackAscii | src/stem.ts:505-533 | for ASCII the reader recovers the chat hash and the full message |
| Instructions.SendMessageTruncatesNonAscii | src/stem.ts:505-533 | for "é" the reader recovers only the first byte of the message |
| Instructions.RegisterKeyRoles | src/stem.ts:278-298 | the owner alone signs; only the descriptor account is writable |
| Instructions.InviteRejectKeyRoles | src/stem.ts:327-484 | invite and reject are signed by the caller alone and write only the two descriptor accounts |
| Instructions.AcceptKeyRoles | src/stem.ts:389-427 | accept is signed by the caller alone and writes the two descriptors and the chat account |
| Instructions.SendMessageKeyRoles | src/stem.ts:508-526 | send is signed by the caller alone and writes only the chat account |
| PeerBooks.Put | src/stem.ts:135-173 | `Map.set` replaces the entry, appends a new key to the order and keeps a known key's position |
| PeerBooks.NewChatAccount | src/stem.ts:144-148 | a new chat account object sits at the chat PDA and starts empty |
| PeerBooks.ReconcilePeer | src/stem.ts:130-175 | one peer step records the descriptor's status for the peer, touches no other entry, only appends to the order, and flags exactly when the peer is new or its entry changed |
| PeerBooks.ReconcilePeerKeepsInvariants | src/stem.ts:129-176 | one step keeps the order duplicate-free and in step with the map; it keeps "an account exactly for Accepted peers, at their chat PDA"; the entry is the documented outcome |
| PeerBooks.ReconcilePeers | src/stem.ts:129-176 | after the loop the map's keys are the old ones plus the listed peers; unlisted entries are kept; the order only grows; no flag means no change |
| PeerBooks.ReconcileKeepsInvariants | src/stem.ts:129-176 | the whole loop keeps both map invariants |
| PeerBooks.ReconcileLastStatus | src/stem.ts:129-176 | each listed peer ends with the status of its last listing |
| PeerBooks.ReconcileOutcome | src/stem.ts:142-175 | a non-Accepted peer has no account; an Accepted peer keeps its existing account or gets a new one at its chat PDA |
| PeerBooks.ReconcileFlagIsChange | src/stem.ts:134-175 | the returned flag is true exactly when the map changed |
| PeerBooks.ReconcileIdempotent | src/stem.ts:129-176 | reconciling the same peers again changes nothing and returns false |
| StemClient.ChatView | src/stem.ts:222-232 | a chat view exists exactly when the chat decodes, and it keeps wallets and length and converts each message |
| StemClient.ParseChat | src/stem.ts:216-233 | `_parseChat`: the account data after the 8-byte tag, decoded and viewed; `ParseChatRoundTrip` shows a written chat parses back |
| StemClient.ParseChatRoundTrip | src/stem.ts:216-233 | a chat account written with its tag parses back to what was written |
| StemClient.ReconcileDescriptor | src/stem.ts:123-177 | an uninitialized descriptor leaves the map alone; one that does not decode is an error; otherwise the result is the loop over its peers |
| StemClient.Announce | src/stem.ts:179-186 | "chats updated" is emitted exactly when the list changed and comes first; "status updated" is emitted exactly when the status changed; nothing else is emitted |
| StemClient.Pass | src/stem.ts:105-189 | a decode failure emits nothing and keeps the map; otherwise the events are at most "chats updated" (first, exactly when the pass returns true) and "status updated" (exactly when registration flips), and nothing else |
| StemClient.SecondPassIsQuiet | src/stem.ts:105-189 | a second pass on the same descriptor keeps the map, emits nothing and returns false |
| StemClient.ReconcileLoop | src/stem.ts:129-176 | the `for` loop over the peers computes the reconciled map and flag |
| StemClient.InitPasses | src/stem.ts:191-194 | without an attached listener, `init` runs one pass |
| StemClient.InitWhileListeningIsOnePass | src/stem.ts:191-198 | with a listener already attached, `init` leaves the same map and events as a single pass |
| StemClient.Stem.constructor | src/stem.ts:72-92 | a new client is unloaded and unregistered, with an empty map and an empty descriptor at its descriptor PDA |
| StemClient.Stem.ParseAndUpdatePeers | src/stem.ts:105-189 | the registration flag follows the descriptor; the map, return value and events are those of `Pass`; the map invariants are kept |
| StemClient.Stem.Init | src/stem.ts:191-204 | the descriptor is refreshed, and the map and events follow `InitPasses`; on success the client is loaded and listening if it subscribes; a decode failure rejects and leaves it unloaded |
| StemClient.Stem.DescriptorUpdated | src/solana.ts:44-50 | the descriptor's `_update` followed by its "update" event: the state is replaced, and a pass runs exactly when `init` attached the listener (src/stem.ts:197) |
| StemClient.Stem.OnChatAccountChange | src/stem.ts:149-159 | a tracked chat account's state is refreshed in place; on a subscribing client the listener parses it and emits the chat only when it decodes, and otherwise rejects without emitting; untracked peers and every other field are left alone |
| StemClient.Stem.IsRegistered | src/stem.ts:98-103 | the getter throws before loading and otherwise returns the flag |
| StemClient.Stem.Chats | src/stem.ts:206-214 | the list holds each known peer once, in insertion order, with its status |
| StemClient.Stem.GetChat | src/stem.ts:235-250 | it refuses unless loaded and registered; a peer unknown or without a chat account gives nothing; otherwise it gives the parsed chat or its error |
| StemClient.Stem.CreateRegisterTx | src/stem.ts:263-303 | it builds exactly when loaded and not registered, with the error for each refusal, and gives the register instruction |
| StemClient.Stem.CreateInviteTx | src/stem.ts:304-361 | it builds exactly when loaded, registered, the peer is unknown or at status 0, and the peer is not the caller; each refusal has its error |
| StemClient.Stem.CheckRequested | src/stem.ts:362-387 | accept and reject pass exactly when loaded, registered, the peer is Requested and the peer is not the caller |
| StemClient.Stem.CreateAcceptTx | src/stem.ts:362-431 | it refuses exactly when the checks fail, with their error; otherwise it gives the accept instruction |
| StemClient.Stem.CreateRejectTx | src/stem.ts:432-488 | it refuses exactly when the checks fail, with their error; otherwise it gives the reject instruction |
| StemClient.Stem.CreateSendMessageTx | src/stem.ts:489-537 | it builds exactly when loaded, registered, the peer is Accepted and the length fits in a u32; each refusal has its error |
| StemClient.ChatsListsEveryPeer | src/stem.ts:206-214 | every peer in the map appears in `chats` |
| StemClient.BuildersFollowDiagram | src/types.ts:3-17 | accept and reject leave the invitee's initial status by a move of the diagram; invite proceeds only from the inviter's initial status |
| StemClient.SendTargetsTrackedChat | src/stem.ts:498-520 | a message transaction writes to the chat account the client tracks for that peer |
| AppStem.GetDescriptorPda | app/src/utils/stem.ts:68-77 | a missing key gives no address; otherwise it gives the descriptor PDA |
| AppStem.Register | app/src/utils/stem.ts:184-216 | it builds exactly when the wallet has a key, and gives the register instruction |
| AppStem.Invite | app/src/utils/stem.ts:235-279 | it builds exactly when the wallet has a key, with no status or self check |
| AppStem.Reject | app/src/utils/stem.ts:280-319 | it builds exactly when the wallet has a key |
| AppStem.Accept | app/src/utils/stem.ts:320-372 | it builds exactly when the wallet has a key |
| AppStem.SendMessage | app/src/utils/stem.ts:373-410 | a missing key fails; otherwise it builds the client's send-message transaction, length check included |
| AppStem.DeserializeDescriptor | app/src/utils/stem.ts:217-220 | it succeeds exactly when the buffer decodes as a descriptor, and gives that descriptor |
| AppStem.DeserializeChat | app/src/utils/stem.ts:221-234 | the decode and the per-message rewrite give the client's chat view of the buffer |
| AppStem.DescriptorTagHandling | app/src/utils/stem.ts:217-220 | on a whole account buffer, the client skips the tag, while the app takes the tag's first four bytes as the peer count |
| AppStem.ParseChatIsDeserializeAfterTag | app/src/utils/stem.ts:221-234 | the client's `_parseChat` is the app's `deserializeChat` applied after the tag |
| AppStem.AppAgreesWithClient | app/src/utils/stem.ts:184-410 | wherever a client builder succeeds, the app builder with the same key builds the same transaction |

## Left out

- SHA-256 and `findProgramAddressSync` are parameters (`Crypto`) that always yield a key. In the client the "Descriptor PDA not generated" branches (src/stem.ts:274-276, 320-322, 381-383, 451-453) are dead in the code itself and have no counterpart in the model. In the app the same branches (app/src/utils/stem.ts:185-189, 236-240, 281-285, 321-325) are reached when the wallet has no key; the model returns `MissingWalletKey` there.
- The RPC connection, `fetch`, `getAccountInfo`, `onAccountChange` and airdrops are I/O. Account lookups arrive as `Option<AccountInfo>` parameters of `Init`, `DescriptorUpdated` and `OnChatAccountChange`.
- The event emitter and its `on` registration are not modelled. Events are returned, in emission order, as a sequence.
- The app builders do not call `wallet.signTransaction`. The signature and the log lines are not modelled, and the builders return the unsigned transaction.
- `balance` is not modelled: it is a floating-point division. `Date` values are not built either: timestamps stay as seconds.
- Base58 strings are not modelled: the peer map is keyed by the 32-byte key itself.
- Any trailing-byte check made by the Borsh library is not modelled: the decoders are prefix parsers that return the rest. The UTF-8 validity check on message content is also not modelled: content stays bytes.
- `app/src/utils/stem_lib.ts`, `src/helpers.ts` and the `Solana` connection class of `app/src/utils/stem.ts` are not part of this model.
- The `Signature` fetch and confirm calls are network calls and are not modelled.
- The app's `Account` class (app/src/utils/solana.ts:25-82) is not modelled separately. Its fields and `_update` match src/solana.ts, so `Solana.Account` stands for both.
- The model does not capture aliasing of account objects. A chat account object replaced in the map is still subscribed in the code; the model keeps only the object held in the map, and its updates go through `OnChatAccountChange`.
- A second `init` on a subscribing client attaches a second listener to the descriptor. The model keeps one `listening` flag. For descriptors that list each peer once, `InitWhileListeningIsOnePass` shows that an extra pass changes neither the map nor the events.
- Rejections raised inside listener-run passes are not modelled: they surface as an `Err` result of `DescriptorUpdated`.
- PeerBooks.ReconcileOutcome: stated only for descriptors that list each peer once. With a repeated key, an Accepted peer listed first with another status and then as Accepted gets a new account instead of keeping the one it had.
- PeerBooks.ReconcileFlagIsChange: stated only for descriptors that list each peer once. With repeats, the flag can be true while the final map equals the old one.
- PeerBooks.ReconcileIdempotent: stated only for descriptors that list each peer once, for the same reason.
- StemClient.SecondPassIsQuiet: stated only for descriptors that list each peer once, because it rests on `ReconcileIdempotent`.
- StemClient.InitWhileListeningIsOnePass: stated only for descriptors that list each peer once, because it rests on `SecondPassIsQuiet`.
- Derivation.GetChatHash: the hash itself is opaque. Only its symmetry (`ChatHashSymmetric`) and the order of its preimage are proved.
- Text.Utf8: a Dafny `string` holds only Unicode scalar values, so a message with a lone UTF-16 surrogate is not modelled; JavaScript counts such a surrogate as 1 in `length` and `Buffer.from` encodes it as EF BF BD.
- Instructions.BuildSendMessage: for the same reason, messages containing lone surrogates are outside the model; `Text.Utf16Length` covers only well-formed strings.
