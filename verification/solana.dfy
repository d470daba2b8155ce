/**
 * The cached account and signature objects of the ledger access layer:
 * only their state fields and the `_update` step that refreshes them.
 * Fetching and subscribing are I/O and are not part of this module.
 */
module Solana {
  import opened Wrappers
  import opened Bytes

  /** What an RPC account lookup returns; the optional fields stand for values that may be missing. */
  datatype AccountInfo = AccountInfo(lamports: Option<nat>, data: Option<Bytes>)

  /** The three fields `_update` writes. */
  datatype AccountState = AccountState(isInitialized: bool, lamports: nat, data: Bytes)

  /** A freshly constructed account: not initialized, no lamports, empty data. */
  const EMPTY_ACCOUNT: AccountState := AccountState(false, 0, [])

  /**
   * The state `_update(info)` leaves: cleared for a missing account;
   * otherwise initialized, with lamports and data taken from `info`
   * (0 and an empty buffer when absent; a lamport count of 0 falls back to 0).
   */
  function AfterUpdate(info: Option<AccountInfo>): (s: AccountState)
    ensures s.isInitialized <==> info.Some?
    ensures info.None? ==> s == EMPTY_ACCOUNT
    ensures info.Some? && info.value.lamports.Some? ==> s.lamports == info.value.lamports.value
    ensures info.Some? && info.value.lamports.None? ==> s.lamports == 0
    ensures info.Some? && info.value.data.Some? ==> s.data == info.value.data.value
    ensures info.Some? && info.value.data.None? ==> s.data == []
  {
    match info
    case None => EMPTY_ACCOUNT
    case Some(i) =>
      AccountState(
        true,
        match i.lamports case Some(l) => l case None => 0,
        match i.data case Some(d) => d case None => [])
  }

  class Account {
    const publicKey: Key
    var isInitialized: bool
    var lamports: nat
    var data: Bytes

    function State(): AccountState
      reads this
    {
      AccountState(isInitialized, lamports, data)
    }

    constructor (publicKey: Key)
      ensures this.publicKey == publicKey
      ensures State() == EMPTY_ACCOUNT
    {
      this.publicKey := publicKey;
      lamports := 0;
      data := [];
      isInitialized := false;
    }

    /** `_update`: overwrites the three state fields; the key is a constant of the object. */
    method Update(info: Option<AccountInfo>)
      modifies this
      ensures State() == AfterUpdate(info)
    {
      if info.None? {
        isInitialized := false;
        lamports := 0;
        data := [];
        return;
      }
      isInitialized := true;
      lamports := match info.value.lamports case Some(l) => l case None => 0;
      data := match info.value.data case Some(d) => d case None => [];
    }
  }

  datatype Commitment = Processed | Confirmed | Finalized

  /** A signature status as the RPC reports it; fields the RPC may omit are optional. */
  datatype SignatureStatus = SignatureStatus(
    slot: nat,
    confirmations: Option<nat>,
    err: Option<string>,
    status: Option<string>,
    confirmationStatus: Option<Commitment>)

  /** The fields `_update` writes, plus the initialization flag that only fetching sets. */
  datatype SignatureState = SignatureState(
    slot: nat,
    confirmations: Option<nat>,
    err: Option<string>,
    status: Option<string>,
    confirmationStatus: Option<Commitment>,
    isInitialized: bool)

  const NEW_SIGNATURE: SignatureState := SignatureState(0, None, None, None, Some(Processed), false)

  /**
   * The state `_update(status)` leaves: nothing changes for a missing
   * status; otherwise the five reported fields are copied and the
   * initialization flag is kept.
   */
  function AfterSignatureUpdate(s: SignatureState, st: Option<SignatureStatus>): (r: SignatureState)
    ensures st.None? ==> r == s
    ensures r.isInitialized == s.isInitialized
    ensures st.Some? ==>
      (r.slot == st.value.slot && r.confirmations == st.value.confirmations
       && r.err == st.value.err && r.status == st.value.status
       && r.confirmationStatus == st.value.confirmationStatus)
  {
    match st
    case None => s
    case Some(v) => SignatureState(v.slot, v.confirmations, v.err, v.status, v.confirmationStatus, s.isInitialized)
  }

  class Signature {
    const signature: string
    var slot: nat
    var confirmations: Option<nat>
    var err: Option<string>
    var status: Option<string>
    var confirmationStatus: Option<Commitment>
    var isInitialized: bool

    function State(): SignatureState
      reads this
    {
      SignatureState(slot, confirmations, err, status, confirmationStatus, isInitialized)
    }

    constructor (signature: string)
      ensures this.signature == signature
      ensures State() == NEW_SIGNATURE
    {
      this.signature := signature;
      slot := 0;
      confirmations := None;
      err := None;
      status := None;
      confirmationStatus := Some(Processed);
      isInitialized := false;
    }

    /** `_update`: ignores a missing status, otherwise copies the reported fields. */
    method Update(st: Option<SignatureStatus>)
      modifies this
      ensures State() == AfterSignatureUpdate(old(State()), st)
    {
      if st.None? {
        return;
      }
      slot := st.value.slot;
      confirmations := st.value.confirmations;
      err := st.value.err;
      status := st.value.status;
      confirmationStatus := st.value.confirmationStatus;
    }
  }
}
