/**
 * The relationship status of a peer, its wire code, its name table, and the
 * per-side transition diagram documented beside the enum.
 */
module PeerStatus {
  import opened Wrappers
  import opened Bytes

  datatype Status = Invited | Requested | Accepted | Rejected

  /** The enum's numeric value, which is also the Borsh status byte. */
  function Code(s: Status): (b: byte)
    ensures b < 4
  {
    match s
    case Invited => 0
    case Requested => 1
    case Accepted => 2
    case Rejected => 3
  }

  /** The reverse direction of the enum; a byte outside 0..3 names no status. */
  function FromCode(b: byte): (r: Option<Status>)
    ensures r.Some? <==> b < 4
    ensures r.Some? ==> Code(r.value) == b
  {
    if b == 0 then Some(Invited)
    else if b == 1 then Some(Requested)
    else if b == 2 then Some(Accepted)
    else if b == 3 then Some(Rejected)
    else None
  }

  lemma CodeRoundTrip(s: Status)
    ensures FromCode(Code(s)) == Some(s)
  {
  }

  /** The member names of the status table, keyed by status. */
  function Name(s: Status): (n: string)
  {
    match s
    case Invited => "Invited"
    case Requested => "Requested"
    case Accepted => "Accepted"
    case Rejected => "Rejected"
  }

  /** The name-to-code half of the status table. */
  function CodeOfName(n: string): (r: Option<byte>)
  {
    if n == "Invited" then Some(0)
    else if n == "Requested" then Some(1)
    else if n == "Accepted" then Some(2)
    else if n == "Rejected" then Some(3)
    else None
  }

  /** The code-to-name half of the status table. */
  function NameOfCode(b: byte): (r: Option<string>)
  {
    if b == 0 then Some("Invited")
    else if b == 1 then Some("Requested")
    else if b == 2 then Some("Accepted")
    else if b == 3 then Some("Rejected")
    else None
  }

  /**
   * The status table is a two-way mapping: each status's name maps to its
   * code, and that code maps back to the same name.
   */
  lemma NameTableRoundTrip(s: Status)
    ensures CodeOfName(Name(s)) == Some(Code(s))
    ensures NameOfCode(Code(s)) == Some(Name(s))
  {
  }

  /** Every code in 0..3 is named, and naming then looking up returns the code. */
  lemma CodeTableRoundTrip(b: byte)
    requires b < 4
    ensures NameOfCode(b).Some? && CodeOfName(NameOfCode(b).value) == Some(b)
  {
  }

  /** Which party of an invitation a descriptor belongs to. */
  datatype Side = Inviter | Invitee

  /** Where a relationship starts on each side. */
  function Initial(side: Side): (s: Status)
    ensures s != Accepted && s != Rejected
  {
    match side
    case Inviter => Invited
    case Invitee => Requested
  }

  /** The edges of the diagram: from the side's initial status to Accepted or Rejected. */
  predicate Step(side: Side, from: Status, to: Status)
  {
    from == Initial(side) && (to == Accepted || to == Rejected)
  }

  /** Accepted and Rejected have no outgoing edge. */
  lemma TerminalStates(side: Side, from: Status, to: Status)
    requires from == Accepted || from == Rejected
    ensures !Step(side, from, to)
  {
  }

  /** The inviter's only moves are Invited to Accepted and Invited to Rejected. */
  lemma InviterSteps(from: Status, to: Status)
    ensures Step(Inviter, from, to) <==> (from, to) == (Invited, Accepted) || (from, to) == (Invited, Rejected)
  {
  }

  /** The invitee's only moves are Requested to Accepted and Requested to Rejected. */
  lemma InviteeSteps(from: Status, to: Status)
    ensures Step(Invitee, from, to) <==> (from, to) == (Requested, Accepted) || (from, to) == (Requested, Rejected)
  {
  }

  /** A sequence of statuses each reachable by one edge from the one before. */
  predicate IsPath(side: Side, path: seq<Status>)
  {
    forall i :: 0 <= i < |path| - 1 ==> Step(side, path[i], path[i + 1])
  }

  /**
   * Every path through the diagram takes at most one step, and a path that
   * does move starts at the side's initial status and ends terminal.
   */
  lemma PathsTakeAtMostOneStep(side: Side, path: seq<Status>)
    requires IsPath(side, path)
    ensures |path| <= 2
    ensures |path| == 2 ==> path[0] == Initial(side) && (path[1] == Accepted || path[1] == Rejected)
  {
    if |path| >= 2 {
      assert Step(side, path[0], path[1]);
      assert |path| > 2 ==> Step(side, path[1], path[2]);
    }
  }
}
