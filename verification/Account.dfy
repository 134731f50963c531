/** The signer's account as its node sees it, and a client's dealings with it. */
module Account {
  import opened Common

  /** The largest nonce is never used by a transaction (EIP-2681). */
  const MAX_NONCE: int := TWO_64 - 1

  /** What Submit has done with its slot so far. */
  datatype Phase = Preparing | SentOk | SentErr | Resolved

  /** A broadcast is accepted, refused, or accepted although the caller sees an error. */
  datatype Outcome = Accepted | Refused | AcceptedUnseen

  /** The pending nonce, and the nonces of the accepted broadcasts, oldest first. */
  datatype State = State(pending: nat, accepted: seq<nat>)

  /** The node takes any nonce below MAX_NONCE; only the pending one moves the account. */
  function Accept(s: State, n: nat): State {
    State(if n == s.pending then s.pending + 1 else s.pending, s.accepted + [n])
  }

  function Broadcast(s: State, n: nat, outcome: Outcome): State {
    if outcome.Refused? then s else Accept(s, n)
  }

  predicate MayEnd(n: nat, outcome: Outcome) {
    outcome.Refused? || n < MAX_NONCE
  }

  /** Everything accepted since `start` is start, start + 1, ..., pending - 1, in that order. */
  predicate GapFree(s: State, start: nat) {
    start <= s.pending < TWO_64 && s.accepted == Range(start, s.pending)
  }

  lemma BroadcastPending(s: State, start: nat, outcome: Outcome)
    requires GapFree(s, start) && MayEnd(s.pending, outcome)
    ensures GapFree(Broadcast(s, s.pending, outcome), start)
  {
    assert Range(start, s.pending) + [s.pending] == Range(start, s.pending + 1);
  }
}
