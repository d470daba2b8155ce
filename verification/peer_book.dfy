/**
 * The client's map from peer key to `{account, status}` and the
 * reconciliation of that map against a decoded descriptor. The map is a
 * JavaScript Map: `order` is its insertion order, and setting a key that
 * is already present keeps its position.
 */
module PeerBooks {
  import opened Wrappers
  import opened Bytes
  import opened Derivation
  import opened Borsh
  import opened Solana
  import PeerStatus

  const ACCEPTED: byte := PeerStatus.Code(PeerStatus.Accepted)

  /** The chat account object held for a peer: its address and its last known state. */
  datatype ChatAccount = ChatAccount(address: Key, state: AccountState)

  datatype PeerEntry = PeerEntry(account: Option<ChatAccount>, status: byte)

  datatype PeerBook = PeerBook(entries: map<Key, PeerEntry>, order: seq<Key>)

  const EMPTY_BOOK: PeerBook := PeerBook(map[], [])

  /** The insertion order lists every key of the map exactly once. */
  ghost predicate WellOrdered(b: PeerBook)
  {
    && (forall i, j :: 0 <= i < j < |b.order| ==> b.order[i] != b.order[j])
    && (forall k :: k in b.entries <==> k in b.order)
  }

  /**
   * An entry carries a chat account exactly when its status is Accepted,
   * and that account sits at the chat address shared with the peer.
   */
  ghost predicate AccountsFollowStatus(c: Crypto, self: Key, entries: map<Key, PeerEntry>)
  {
    forall k :: k in entries ==>
      && (entries[k].account.Some? <==> entries[k].status == ACCEPTED)
      && (entries[k].account.Some? ==> entries[k].account.value.address == ChatPda(c, self, k))
  }

  function Lookup(b: PeerBook, k: Key): Option<PeerEntry>
  {
    if k in b.entries then Some(b.entries[k]) else None
  }

  /** `Map.set`: a new key goes to the end of the order, an existing one keeps its place. */
  function Put(b: PeerBook, k: Key, e: PeerEntry): (r: PeerBook)
    ensures r.entries == b.entries[k := e]
    ensures b.order <= r.order
    ensures k in b.entries ==> r.order == b.order
    ensures WellOrdered(b) ==> WellOrdered(r)
  {
    PeerBook(b.entries[k := e], if k in b.entries then b.order else b.order + [k])
  }

  /** A freshly constructed chat account object for the peer: not yet fetched. */
  function NewChatAccount(c: Crypto, self: Key, peer: Key): (a: ChatAccount)
    ensures a.address == ChatPda(c, self, peer) && a.state == EMPTY_ACCOUNT
  {
    ChatAccount(ChatPda(c, self, peer), EMPTY_ACCOUNT)
  }

  /**
   * The entry a decoded peer leaves, stated on the entry found before it:
   * an Accepted peer keeps the chat account it already has or gets a new
   * one; any other status carries no account.
   */
  function Outcome(c: Crypto, self: Key, found: Option<PeerEntry>, p: Peer): PeerEntry
  {
    if p.status != ACCEPTED then PeerEntry(None, p.status)
    else if found.Some? && found.value.account.Some? then found.value
    else PeerEntry(Some(NewChatAccount(c, self, p.pubkey)), ACCEPTED)
  }

  /**
   * One pass of the reconciliation loop for the decoded peer `p`: insert
   * an entry if the key is new; give an Accepted peer without an account a
   * new chat account; otherwise reset the entry when its status differs.
   * The flag says whether the pass changed the map.
   */
  function ReconcilePeer(c: Crypto, self: Key, b: PeerBook, p: Peer): (r: (PeerBook, bool))
    ensures p.pubkey in r.0.entries && r.0.entries[p.pubkey].status == p.status
    ensures r.0.entries == b.entries[p.pubkey := r.0.entries[p.pubkey]]
    ensures b.order <= r.0.order
    ensures r.1 <==> (p.pubkey !in b.entries || r.0.entries[p.pubkey] != b.entries[p.pubkey])
    ensures !r.1 ==> r.0 == b
  {
    var k := p.pubkey;
    var known := k in b.entries;
    var b1 := if known then b else Put(b, k, PeerEntry(None, p.status));
    if p.status == ACCEPTED && (!known || b.entries[k].account.None?) then
      (Put(b1, k, PeerEntry(Some(NewChatAccount(c, self, k)), p.status)), true)
    else if b1.entries[k].status != p.status then
      (Put(b1, k, PeerEntry(None, p.status)), true)
    else
      (b1, !known)
  }

  /**
   * One pass keeps the order well formed and the account invariant, and
   * under that invariant leaves the peer's `Outcome`.
   */
  lemma ReconcilePeerKeepsInvariants(c: Crypto, self: Key, b: PeerBook, p: Peer)
    ensures WellOrdered(b) ==> WellOrdered(ReconcilePeer(c, self, b, p).0)
    ensures AccountsFollowStatus(c, self, b.entries) ==>
      var r := ReconcilePeer(c, self, b, p).0;
      && AccountsFollowStatus(c, self, r.entries)
      && r.entries[p.pubkey] == Outcome(c, self, Lookup(b, p.pubkey), p)
  {
  }

  /** The keys the decoded peers name. */
  function KeysOf(ps: seq<Peer>): (ks: set<Key>)
    ensures forall i :: 0 <= i < |ps| ==> ps[i].pubkey in ks
  {
    if ps == [] then {} else KeysOf(ps[..|ps| - 1]) + {ps[|ps| - 1].pubkey}
  }

  /** A key of `KeysOf(ps)` is the key of some decoded peer. */
  lemma {:induction false} KeysOfWitness(ps: seq<Peer>, k: Key) returns (i: nat)
    requires k in KeysOf(ps)
    ensures i < |ps| && ps[i].pubkey == k
  {
    if ps[|ps| - 1].pubkey == k {
      i := |ps| - 1;
    } else {
      i := KeysOfWitness(ps[..|ps| - 1], k);
    }
  }

  /** The status of the last decoded peer with key `k`. */
  function LastStatus(ps: seq<Peer>, k: Key): byte
    requires k in KeysOf(ps)
  {
    if ps[|ps| - 1].pubkey == k then ps[|ps| - 1].status else LastStatus(ps[..|ps| - 1], k)
  }

  predicate DistinctKeys(ps: seq<Peer>)
  {
    forall i, j :: 0 <= i < j < |ps| ==> ps[i].pubkey != ps[j].pubkey
  }

  /**
   * The loop over all decoded peers, in order. The map gains exactly the
   * decoded keys, loses none, and keeps every other entry; the flag is
   * false only when nothing moved.
   */
  function ReconcilePeers(c: Crypto, self: Key, b: PeerBook, ps: seq<Peer>): (r: (PeerBook, bool))
    ensures r.0.entries.Keys == b.entries.Keys + KeysOf(ps)
    ensures forall k :: k in b.entries && k !in KeysOf(ps) ==> r.0.entries[k] == b.entries[k]
    ensures b.order <= r.0.order
    ensures !r.1 ==> r.0 == b
  {
    if ps == [] then (b, false)
    else
      var prev := ReconcilePeers(c, self, b, ps[..|ps| - 1]);
      var last := ReconcilePeer(c, self, prev.0, ps[|ps| - 1]);
      (last.0, prev.1 || last.1)
  }

  /** Reconciliation keeps the order well formed and the account invariant. */
  lemma {:induction false} ReconcileKeepsInvariants(c: Crypto, self: Key, b: PeerBook, ps: seq<Peer>)
    ensures WellOrdered(b) ==> WellOrdered(ReconcilePeers(c, self, b, ps).0)
    ensures AccountsFollowStatus(c, self, b.entries) ==> AccountsFollowStatus(c, self, ReconcilePeers(c, self, b, ps).0.entries)
  {
    if ps != [] {
      var prev := ReconcilePeers(c, self, b, ps[..|ps| - 1]);
      ReconcileKeepsInvariants(c, self, b, ps[..|ps| - 1]);
      ReconcilePeerKeepsInvariants(c, self, prev.0, ps[|ps| - 1]);
    }
  }

  /** Every decoded peer ends with the status of its last occurrence in the descriptor. */
  lemma {:induction false} ReconcileLastStatus(c: Crypto, self: Key, b: PeerBook, ps: seq<Peer>, k: Key)
    requires k in KeysOf(ps)
    ensures ReconcilePeers(c, self, b, ps).0.entries[k].status == LastStatus(ps, k)
  {
    var init, last := ps[..|ps| - 1], ps[|ps| - 1];
    var prev := ReconcilePeers(c, self, b, init);
    if last.pubkey != k {
      ReconcileLastStatus(c, self, b, init, k);
    }
  }

  /** With distinct keys the last peer's key is not among the earlier ones. */
  lemma LastKeyIsNew(ps: seq<Peer>)
    requires DistinctKeys(ps) && ps != []
    ensures ps[|ps| - 1].pubkey !in KeysOf(ps[..|ps| - 1])
    ensures DistinctKeys(ps[..|ps| - 1])
  {
    var init := ps[..|ps| - 1];
    if ps[|ps| - 1].pubkey in KeysOf(init) {
      var j := KeysOfWitness(init, ps[|ps| - 1].pubkey);
    }
  }

  /**
   * With distinct keys each decoded peer's entry is its `Outcome` on the
   * entry the map held before reconciliation.
   */
  lemma {:induction false} ReconcileOutcome(c: Crypto, self: Key, b: PeerBook, ps: seq<Peer>, i: nat)
    requires AccountsFollowStatus(c, self, b.entries) && DistinctKeys(ps) && i < |ps|
    ensures ReconcilePeers(c, self, b, ps).0.entries[ps[i].pubkey] == Outcome(c, self, Lookup(b, ps[i].pubkey), ps[i])
  {
    var init, last := ps[..|ps| - 1], ps[|ps| - 1];
    var prev := ReconcilePeers(c, self, b, init);
    var r := ReconcilePeer(c, self, prev.0, last);
    assert ReconcilePeers(c, self, b, ps).0 == r.0;
    LastKeyIsNew(ps);
    ReconcileKeepsInvariants(c, self, b, init);
    ReconcilePeerKeepsInvariants(c, self, prev.0, last);
    if i < |init| {
      assert init[i] == ps[i];
      assert ps[i].pubkey != last.pubkey;
      ReconcileOutcome(c, self, b, init, i);
      assert r.0.entries[ps[i].pubkey] == prev.0.entries[ps[i].pubkey];
    } else {
      assert Lookup(prev.0, last.pubkey) == Lookup(b, last.pubkey);
    }
  }

  /** With distinct keys the returned flag is exactly "the map changed". */
  lemma {:induction false} ReconcileFlagIsChange(c: Crypto, self: Key, b: PeerBook, ps: seq<Peer>)
    requires DistinctKeys(ps)
    ensures ReconcilePeers(c, self, b, ps).1 <==> ReconcilePeers(c, self, b, ps).0.entries != b.entries
  {
    if ps != [] {
      var init, last := ps[..|ps| - 1], ps[|ps| - 1];
      var prev := ReconcilePeers(c, self, b, init);
      var step := ReconcilePeer(c, self, prev.0, last);
      assert ReconcilePeers(c, self, b, ps) == (step.0, prev.1 || step.1);
      LastKeyIsNew(ps);
      ReconcileFlagIsChange(c, self, b, init);
      if prev.1 {
        var k :| k in prev.0.entries && (k !in b.entries || prev.0.entries[k] != b.entries[k]);
        assert k != last.pubkey;
        assert step.0.entries[k] == prev.0.entries[k];
      }
      if step.1 {
        assert Lookup(prev.0, last.pubkey) == Lookup(b, last.pubkey);
        assert last.pubkey !in b.entries || step.0.entries[last.pubkey] != b.entries[last.pubkey];
      }
    }
  }

  /**
   * A second reconciliation against the same descriptor changes nothing
   * and reports no change: the map is a fixed point of the descriptor.
   */
  lemma ReconcileIdempotent(c: Crypto, self: Key, b: PeerBook, ps: seq<Peer>)
    requires AccountsFollowStatus(c, self, b.entries) && DistinctKeys(ps)
    ensures var once := ReconcilePeers(c, self, b, ps).0;
      ReconcilePeers(c, self, once, ps) == (once, false)
  {
    var once := ReconcilePeers(c, self, b, ps).0;
    var twice := ReconcilePeers(c, self, once, ps).0;
    ReconcileKeepsInvariants(c, self, b, ps);
    forall k | k in twice.entries
      ensures k in once.entries && twice.entries[k] == once.entries[k]
    {
      if k in KeysOf(ps) {
        var i := KeysOfWitness(ps, k);
        ReconcileOutcome(c, self, b, ps, i);
        ReconcileOutcome(c, self, once, ps, i);
      }
    }
    assert twice.entries == once.entries;
    ReconcileFlagIsChange(c, self, once, ps);
  }
}
