/** The broker's side of an authority check: one numbered challenge, one matching
    permission, both inside the execution's budget. What comes back is arbitrary. */
module Authority {
  import opened ActionTypes
  import opened Budget

  const MAX_CHECKPOINTS := 2

  datatype Challenge = Challenge(checkpoint: nat, nonce: string)

  datatype Decision = Decision(request: Request, lease: string, checkpoint: nat, nonce: string, checkedAt: Time,
    permitted: bool)

  // What the world does during one check: whether the invocation is current before and still
  // after it, the decoded answer if one came, and the clocks around it.
  datatype Exchange = Exchange(current: bool, answer: Option<Decision>, send: Stamp, recv: Stamp, now: Stamp,
    still: bool)

  // The decision answers this challenge, for this claim and inside its lease.
  predicate Answers(d: Decision, c: Claim, lease: string, sent: Challenge) {
    && d.request == c.request && d.lease == lease && d.checkpoint == sent.checkpoint && d.nonce == sent.nonce
    && c.claimed <= d.checkedAt < c.lease && d.permitted
  }

  class Conversation {
    const claim: Claim
    const lease: string
    const execution: Execution
    const key: Key
    var checkpoint: nat
    var last: Option<string>
    ghost var sent: seq<Challenge>

    ghost predicate Valid()
      reads this
    {
      && checkpoint == |sent| <= MAX_CHECKPOINTS
      && (forall i :: 0 <= i < |sent| ==> sent[i].checkpoint == i + 1)
      && (forall i :: 0 <= i && i + 1 < |sent| ==> sent[i].nonce != sent[i + 1].nonce)
      && last == if sent == [] then None else Some(sent[|sent| - 1].nonce)
    }

    constructor (claim: Claim, lease: string, execution: Execution, key: Key)
      ensures Valid() && sent == [] && this.claim == claim && this.lease == lease && this.execution == execution &&
        this.key == key
    {
      this.claim, this.lease, this.execution, this.key := claim, lease, execution, key;
      checkpoint, last, sent := 0, None, [];
    }

    // What is asked before a challenge is sent: a fresh nonce, the invocation's own key, still current.
    predicate MayAsk(r: Request, b: LocalBinding, nonce: Option<string>, current: bool)
      reads this
    {
      checkpoint < 2 && current && NewJournalKey(r, b) == Some(key) && nonce.Some? && last != nonce
    }

    /** A check sends its one challenge exactly when it may, numbered next, and it
        succeeds exactly when the answer names the same request, lease, number and
        nonce, was made within the lease and permits, in time, and nothing changed
        meanwhile; over a conversation at most two challenges are ever sent. */
    method Check(r: Request, b: LocalBinding, nonce: Option<string>, x: Exchange) returns (ok: bool)
      requires Valid()
      modifies this
      ensures Valid()
      ensures sent == old(sent) +
        if old(MayAsk(r, b, nonce, x.current)) then [Challenge(|old(sent)| + 1, nonce.value)] else []
      ensures ok <==>
        && old(MayAsk(r, b, nonce, x.current)) && x.answer.Some? && x.still
        && var d := x.answer.value;
           && d.request == claim.request && d.lease == lease && d.permitted
           && claim.claimed <= d.checkedAt < claim.lease
           && d.checkpoint == |old(sent)| + 1 && Some(d.nonce) == nonce
           && CheckDecision(execution, x.send, x.recv, d.checkedAt, x.now)
    {
      hide CheckDecision;
      if checkpoint >= MAX_CHECKPOINTS || !x.current {
        return false;
      }
      if NewJournalKey(r, b) != Some(key) {
        return false;
      }
      if nonce.None? || last == nonce {
        return false;
      }
      last, checkpoint := nonce, checkpoint + 1;
      var challenge := Challenge(checkpoint, nonce.value);
      sent := sent + [challenge];
      if x.answer.None? || !Answers(x.answer.value, claim, lease, challenge) {
        return false;
      }
      ok := CheckDecision(execution, x.send, x.recv, x.answer.value.checkedAt, x.now) && x.still;
    }
  }
}
