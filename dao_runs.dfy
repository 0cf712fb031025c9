/**
 * Sequences of calls against the DAO, interleaved with token transfers that
 * happen outside it, and the properties that hold across every such sequence.
 */
module DaoRuns {
  import opened Wrappers
  import opened Ledger
  import opened Dao

  datatype Call =
    | CreateCall(caller: Address, name: string, description: string, amount: nat, recipient: Address)
    | VoteCall(caller: Address, id: nat, support: bool)
    | FinalizeCall(caller: Address, id: nat)
      /**
       * Token transfers between other holders: they change voting weights and
       * can fund the treasury. The DAO's own address sends tokens only through
       * `finalizeProposal`, so a transfer from it here changes nothing.
       */
    | GovTransfer(from: Address, to: Address, amount: nat)
    | PayTransfer(from: Address, to: Address, amount: nat)

  /** The state after a call; a reverted call leaves the state as it was. */
  function Apply(s: State, c: Call): State
  {
    match c
    case CreateCall(caller, name, description, amount, recipient) =>
      Commit(s, CreateStep(s, caller, name, description, amount, recipient))
    case VoteCall(caller, id, support) => Commit(s, VoteStep(s, caller, id, support))
    case FinalizeCall(caller, id) => Commit(s, FinalizeStep(s, caller, id))
    case GovTransfer(from, to, amount) =>
      if from == s.config.treasury then s
      else (match Transfer(s.gov, from, to, amount) case Some(g) => s.(gov := g) case None => s)
    case PayTransfer(from, to, amount) =>
      if from == s.config.treasury then s
      else (match Transfer(s.pay, from, to, amount) case Some(p) => s.(pay := p) case None => s)
  }

  function Commit(s: State, o: Outcome): State
  {
    if o.Done? then o.next else s
  }

  function Run(s: State, calls: seq<Call>): State
    decreases |calls|
  {
    if calls == [] then s else Run(Apply(s, calls[0]), calls[1..])
  }

  /** Whether `c` is a vote by `voter` on proposal `id` that succeeds in state `s`. */
  predicate VoteSucceeds(s: State, c: Call, voter: Address, id: nat)
  {
    c.VoteCall? && c.caller == voter && c.id == id && VoteStep(s, voter, id, c.support).Done?
  }

  predicate FinalizeSucceeds(s: State, c: Call, id: nat)
  {
    c.FinalizeCall? && c.id == id && FinalizeStep(s, c.caller, id).Done?
  }

  /** How many votes by `voter` on `id` succeed along `calls`, in either direction. */
  function VoteSuccesses(s: State, calls: seq<Call>, voter: Address, id: nat): nat
    decreases |calls|
  {
    if calls == [] then 0
    else (if VoteSucceeds(s, calls[0], voter, id) then 1 else 0) + VoteSuccesses(Apply(s, calls[0]), calls[1..], voter, id)
  }

  /** How many finalize calls on `id` succeed along `calls`, whoever sends them. */
  function FinalizeSuccesses(s: State, calls: seq<Call>, id: nat): nat
    decreases |calls|
  {
    if calls == [] then 0
    else (if FinalizeSucceeds(s, calls[0], id) then 1 else 0) + FinalizeSuccesses(Apply(s, calls[0]), calls[1..], id)
  }

  lemma CreatePreservesValid(s: State, caller: Address, name: string, description: string, amount: nat, recipient: Address)
    requires Valid(s) && CreateStep(s, caller, name, description, amount, recipient).Done?
    ensures Valid(CreateStep(s, caller, name, description, amount, recipient).next)
  {
    var t := CreateStep(s, caller, name, description, amount, recipient).next;
    forall id ensures id in t.proposals <==> 1 <= id <= t.proposalCount {
      assert id in t.proposals <==> id in s.proposals || id == s.proposalCount + 1;
    }
    assert forall id :: id in t.proposals ==> WellFormed(id, t.proposals[id]);
  }

  lemma VotePreservesValid(s: State, caller: Address, id: nat, support: bool)
    requires Valid(s) && VoteStep(s, caller, id, support).Done?
    ensures Valid(VoteStep(s, caller, id, support).next)
  {
    var t := VoteStep(s, caller, id, support).next;
    assert forall i :: i in t.proposals ==> WellFormed(i, t.proposals[i]);
    assert forall k :: k in t.votes ==> k.1 in t.proposals && t.votes[k].upVoted != t.votes[k].downVoted;
  }

  lemma FinalizePreservesValid(s: State, caller: Address, id: nat)
    requires Valid(s) && FinalizeStep(s, caller, id).Done?
    ensures Valid(FinalizeStep(s, caller, id).next)
  {
    var t := FinalizeStep(s, caller, id).next;
    assert forall i :: i in t.proposals ==> WellFormed(i, t.proposals[i]);
  }

  /** One call keeps the ledger invariant. */
  lemma ApplyPreservesValid(s: State, c: Call)
    requires Valid(s)
    ensures Valid(Apply(s, c))
    ensures Apply(s, c).config == s.config
  {
    match c
    case CreateCall(caller, name, description, amount, recipient) =>
      if CreateStep(s, caller, name, description, amount, recipient).Done? {
        CreatePreservesValid(s, caller, name, description, amount, recipient);
      }
    case VoteCall(caller, id, support) =>
      if VoteStep(s, caller, id, support).Done? {
        VotePreservesValid(s, caller, id, support);
      }
    case FinalizeCall(caller, id) =>
      if FinalizeStep(s, caller, id).Done? {
        FinalizePreservesValid(s, caller, id);
      }
    case GovTransfer(_, _, _) =>
    case PayTransfer(_, _, _) =>
  }

  /** Every reachable state satisfies the ledger invariant, and the configuration never changes. */
  lemma {:induction false} RunPreservesValid(s: State, calls: seq<Call>)
    requires Valid(s)
    ensures Valid(Run(s, calls))
    ensures Run(s, calls).config == s.config
    decreases |calls|
  {
    if calls != [] {
      ApplyPreservesValid(s, calls[0]);
      RunPreservesValid(Apply(s, calls[0]), calls[1..]);
    }
  }

  /** One call never removes or alters a recorded vote, nor touches a finalized proposal. */
  lemma ApplyKeepsHistory(s: State, c: Call)
    requires Valid(s)
    ensures forall k :: k in s.votes ==> k in Apply(s, c).votes && Apply(s, c).votes[k] == s.votes[k]
    ensures forall i :: i in s.proposals ==>
      && i in Apply(s, c).proposals
      && Apply(s, c).proposals[i].upVotes >= s.proposals[i].upVotes
      && Apply(s, c).proposals[i].downVotes >= s.proposals[i].downVotes
      && (s.proposals[i].finalized ==> Apply(s, c).proposals[i] == s.proposals[i])
    ensures Apply(s, c).proposalCount >= s.proposalCount
  {
    assert s.proposalCount + 1 !in s.proposals;
  }

  /** A vote record, once made, stays as it is for ever: there is no retraction and no switching. */
  lemma {:induction false} VoteRecordPersists(s: State, calls: seq<Call>, voter: Address, id: nat)
    requires (voter, id) in s.votes
    requires Valid(s)
    ensures (voter, id) in Run(s, calls).votes
    ensures Run(s, calls).votes[(voter, id)] == s.votes[(voter, id)]
    decreases |calls|
  {
    if calls != [] {
      ApplyKeepsHistory(s, calls[0]);
      ApplyPreservesValid(s, calls[0]);
      VoteRecordPersists(Apply(s, calls[0]), calls[1..], voter, id);
    }
  }

  /** A finalized proposal is terminal: no later call changes any of its fields. */
  lemma {:induction false} FinalizedIsFrozen(s: State, calls: seq<Call>, id: nat)
    requires id in s.proposals && s.proposals[id].finalized
    requires Valid(s)
    ensures id in Run(s, calls).proposals
    ensures Run(s, calls).proposals[id] == s.proposals[id]
    decreases |calls|
  {
    if calls != [] {
      ApplyKeepsHistory(s, calls[0]);
      ApplyPreservesValid(s, calls[0]);
      FinalizedIsFrozen(Apply(s, calls[0]), calls[1..], id);
    }
  }

  /**
   * Along any sequence of calls, at most one vote by a given voter on a given
   * proposal succeeds, in either direction; none does once a vote is on record.
   */
  lemma {:induction false} AtMostOneVote(s: State, calls: seq<Call>, voter: Address, id: nat)
    requires Valid(s)
    ensures VoteSuccesses(s, calls, voter, id) <= 1
    ensures (voter, id) in s.votes ==> VoteSuccesses(s, calls, voter, id) == 0
    decreases |calls|
  {
    if calls != [] {
      var c := calls[0];
      var t := Apply(s, c);
      ApplyKeepsHistory(s, c);
      ApplyPreservesValid(s, c);
      AtMostOneVote(t, calls[1..], voter, id);
      if VoteSucceeds(s, c, voter, id) {
        assert (voter, id) in t.votes;
      }
    }
  }

  /**
   * Along any sequence of calls, at most one finalize of a given proposal
   * succeeds; none does once the proposal is finalized.
   */
  lemma {:induction false} AtMostOneFinalize(s: State, calls: seq<Call>, id: nat)
    requires Valid(s)
    ensures FinalizeSuccesses(s, calls, id) <= 1
    ensures id in s.proposals && s.proposals[id].finalized ==> FinalizeSuccesses(s, calls, id) == 0
    decreases |calls|
  {
    if calls != [] {
      var c := calls[0];
      var t := Apply(s, c);
      ApplyKeepsHistory(s, c);
      ApplyPreservesValid(s, c);
      AtMostOneFinalize(t, calls[1..], id);
      if FinalizeSucceeds(s, c, id) {
        assert id in t.proposals && t.proposals[id].finalized;
      }
    }
  }

  predicate IsFinalized(s: State, id: nat)
  {
    id in s.proposals && s.proposals[id].finalized
  }

  /** A proposal becomes finalized only through a successful finalize of that proposal. */
  lemma FinalizedOnlyByFinalize(s: State, c: Call, id: nat)
    requires Valid(s)
    requires IsFinalized(Apply(s, c), id) && !IsFinalized(s, id)
    ensures FinalizeSucceeds(s, c, id)
  {
  }

  /** A vote record appears only through a successful vote of that voter on that proposal. */
  lemma RecordOnlyByVote(s: State, c: Call, voter: Address, id: nat)
    requires (voter, id) in Apply(s, c).votes && (voter, id) !in s.votes
    ensures VoteSucceeds(s, c, voter, id)
  {
  }

  /**
   * `finalized` is false until exactly one finalize succeeds: after any sequence
   * of calls a proposal is finalized iff it already was, or one finalize of it succeeded.
   */
  lemma {:induction false} FinalizedExactlyOnce(s: State, calls: seq<Call>, id: nat)
    requires Valid(s)
    ensures IsFinalized(Run(s, calls), id) <==> IsFinalized(s, id) || FinalizeSuccesses(s, calls, id) == 1
    decreases |calls|
  {
    if calls != [] {
      var c := calls[0];
      var t := Apply(s, c);
      ApplyKeepsHistory(s, c);
      ApplyPreservesValid(s, c);
      FinalizedExactlyOnce(t, calls[1..], id);
      AtMostOneFinalize(t, calls[1..], id);
      if !IsFinalized(s, id) && !FinalizeSucceeds(s, c, id) && IsFinalized(t, id) {
        FinalizedOnlyByFinalize(s, c, id);
      }
    }
  }

  /**
   * A vote record exists after any sequence of calls iff it existed before, or
   * exactly one vote of that voter on that proposal succeeded.
   */
  lemma {:induction false} RecordedExactlyOnce(s: State, calls: seq<Call>, voter: Address, id: nat)
    requires Valid(s)
    ensures (voter, id) in Run(s, calls).votes <==> (voter, id) in s.votes || VoteSuccesses(s, calls, voter, id) == 1
    decreases |calls|
  {
    if calls != [] {
      var c := calls[0];
      var t := Apply(s, c);
      ApplyKeepsHistory(s, c);
      ApplyPreservesValid(s, c);
      RecordedExactlyOnce(t, calls[1..], voter, id);
      AtMostOneVote(t, calls[1..], voter, id);
      if (voter, id) !in s.votes && !VoteSucceeds(s, c, voter, id) && (voter, id) in t.votes {
        RecordOnlyByVote(s, c, voter, id);
      }
    }
  }

  /** Proposals are never removed, their vote tallies only grow, and the counter never goes back. */
  lemma {:induction false} TalliesOnlyGrow(s: State, calls: seq<Call>, id: nat)
    requires id in s.proposals
    requires Valid(s)
    ensures id in Run(s, calls).proposals
    ensures Run(s, calls).proposalCount >= s.proposalCount
    ensures Run(s, calls).proposals[id].upVotes >= s.proposals[id].upVotes
    ensures Run(s, calls).proposals[id].downVotes >= s.proposals[id].downVotes
    decreases |calls|
  {
    if calls != [] {
      ApplyKeepsHistory(s, calls[0]);
      ApplyPreservesValid(s, calls[0]);
      TalliesOnlyGrow(Apply(s, calls[0]), calls[1..], id);
    }
  }

  /**
   * The treasury's pay-token balance falls only through a successful finalize
   * that approves, and then by exactly the proposal's amount.
   */
  lemma TreasuryFallsOnlyOnApproval(s: State, c: Call)
    requires BalanceOf(Apply(s, c).pay, s.config.treasury) < BalanceOf(s.pay, s.config.treasury)
    ensures c.FinalizeCall? && FinalizeStep(s, c.caller, c.id).Done? && FinalizeStep(s, c.caller, c.id).event.approved
    ensures c.FinalizeCall? && c.id in s.proposals
    ensures BalanceOf(s.pay, s.config.treasury) - BalanceOf(Apply(s, c).pay, s.config.treasury) == s.proposals[c.id].amount
  {
  }
}
