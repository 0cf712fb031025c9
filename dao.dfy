/**
 * The DAO governance contract as a state machine over values.
 *
 * Investors (holders of a positive governance-token balance) create funding
 * proposals, vote on them with their whole current governance balance, and
 * finalize a proposal once its up-votes or its down-votes strictly exceed the
 * quorum. An approved proposal is paid out in pay tokens from the DAO's own
 * balance (the treasury). Every failed call reverts and changes nothing.
 */
module Dao {
  import opened Wrappers
  import opened Ledger

  /** `tokens(n)` of the test suite: n whole tokens of 18 decimals, in wei. */
  const WeiPerToken: nat := 1_000_000_000_000_000_000

  /** Whole tokens to wei; `formatUnits(wei, 'ether')` recovers exactly `n`. */
  function Tokens(n: nat): (wei: nat)
    ensures wei % WeiPerToken == 0 && wei / WeiPerToken == n
  {
    n * WeiPerToken
  }

  /** Set once at deployment, never changed: token addresses, quorum, and the DAO's own address. */
  datatype Config = Config(govToken: Address, payToken: Address, quorum: nat, treasury: Address)

  datatype Proposal = Proposal(
    id: nat,
    name: string,
    description: string,
    amount: nat,
    recipient: Address,
    upVotes: nat,
    downVotes: nat,
    finalized: bool,
    approved: bool)

  /** The per-(voter, proposal) record; absent from the registry until the voter votes. */
  datatype VoteRecord = VoteRecord(upVoted: bool, downVoted: bool)

  datatype State = State(
    config: Config,
    proposalCount: nat,
    proposals: map<nat, Proposal>,
    votes: map<(Address, nat), VoteRecord>,
    gov: Balances,
    pay: Balances)

  datatype Event =
    | Propose(id: nat, amount: nat, recipient: Address, creator: Address)
    | UpVote(id: nat, voter: Address)
    | DownVote(id: nat, voter: Address)
    | Finalize(id: nat, approved: bool)

  datatype Error =
    | Unauthorized
    | InvalidArgument
    | InsufficientTreasury
    | NotFound
    | AlreadyFinalized
    | AlreadyVoted
    | QuorumNotMet

  /** A call either commits a new state and emits one event, or reverts with an error. */
  datatype Outcome = Done(next: State, event: Event) | Rejected(error: Error)

  /** Voting weight: the caller's governance balance at the moment of the call. */
  function Weight(s: State, a: Address): nat
  {
    BalanceOf(s.gov, a)
  }

  predicate IsInvestor(s: State, a: Address)
  {
    Weight(s, a) > 0
  }

  function Treasury(s: State): nat
  {
    BalanceOf(s.pay, s.config.treasury)
  }

  predicate QuorumReached(p: Proposal, quorum: nat)
  {
    p.upVotes > quorum || p.downVotes > quorum
  }

  /** What every stored proposal satisfies. */
  predicate WellFormed(id: nat, p: Proposal)
  {
    && p.id == id
    && p.name != []
    && p.description != []
    && p.recipient != ZeroAddress
    && p.amount > 0
    && (p.approved ==> p.finalized)
  }

  /**
   * The ledger invariant: ids are exactly 1..proposalCount, every proposal is
   * well formed, and every vote record names an existing proposal and holds
   * exactly one of the two directions.
   */
  ghost predicate Valid(s: State)
  {
    && (forall id :: id in s.proposals <==> 1 <= id <= s.proposalCount)
    && (forall id :: id in s.proposals ==> WellFormed(id, s.proposals[id]))
    && (forall k :: k in s.votes ==> k.1 in s.proposals && s.votes[k].upVoted != s.votes[k].downVoted)
  }

  /** The state right after deployment, given the token ledgers at that moment. */
  function Deploy(config: Config, gov: Balances, pay: Balances): (s: State)
    ensures Valid(s)
    ensures s.proposalCount == 0 && s.proposals == map[] && s.votes == map[]
    ensures s.config == config && s.gov == gov && s.pay == pay
  {
    State(config, 0, map[], map[], gov, pay)
  }

  /** `createProposal(name, description, amount, recipient)` sent by `caller`. */
  function CreateStep(s: State, caller: Address, name: string, description: string, amount: nat, recipient: Address): (r: Outcome)
    ensures r.Done? <==>
      IsInvestor(s, caller) && name != [] && description != [] && recipient != ZeroAddress && 0 < amount <= Treasury(s)
    ensures !IsInvestor(s, caller) ==> r == Rejected(Unauthorized)
    ensures IsInvestor(s, caller) && (name == [] || description == [] || recipient == ZeroAddress) ==>
      r == Rejected(InvalidArgument)
    ensures (IsInvestor(s, caller) && name != [] && description != [] && recipient != ZeroAddress &&
             !(0 < amount <= Treasury(s))) ==> r == Rejected(InsufficientTreasury)
    ensures r.Done? ==>
      var id := s.proposalCount + 1;
      && r.event == Propose(id, amount, recipient, caller)
      && r.next.proposalCount == id
      && id in r.next.proposals
      && r.next.proposals[id] == Proposal(id, name, description, amount, recipient, 0, 0, false, false)
      && r.next.proposals.Keys == s.proposals.Keys + {id}
      && (forall i :: i in s.proposals && i != id ==> r.next.proposals[i] == s.proposals[i])
      && r.next.votes == s.votes && r.next.gov == s.gov && r.next.pay == s.pay && r.next.config == s.config
  {
    if !IsInvestor(s, caller) then
      Rejected(Unauthorized)
    else if name == [] || description == [] || recipient == ZeroAddress then
      Rejected(InvalidArgument)
    else if amount == 0 || amount > Treasury(s) then
      Rejected(InsufficientTreasury)
    else
      var id := s.proposalCount + 1;
      var p := Proposal(id, name, description, amount, recipient, 0, 0, false, false);
      Done(s.(proposalCount := id, proposals := s.proposals[id := p]), Propose(id, amount, recipient, caller))
  }

  /** `upVote(id)` (support) or `downVote(id)` (not support) sent by `caller`. */
  function VoteStep(s: State, caller: Address, id: nat, support: bool): (r: Outcome)
    ensures r.Done? <==>
      IsInvestor(s, caller) && id in s.proposals && !s.proposals[id].finalized && (caller, id) !in s.votes
    ensures !IsInvestor(s, caller) ==> r == Rejected(Unauthorized)
    ensures IsInvestor(s, caller) && id in s.proposals && !s.proposals[id].finalized && (caller, id) in s.votes ==>
      r == Rejected(AlreadyVoted)
    ensures r.Done? ==>
      var p := s.proposals[id];
      var w := Weight(s, caller);
      && r.event == (if support then UpVote(id, caller) else DownVote(id, caller))
      && id in r.next.proposals
      && r.next.proposals[id].upVotes == (if support then p.upVotes + w else p.upVotes)
      && r.next.proposals[id].downVotes == (if support then p.downVotes else p.downVotes + w)
      && r.next.proposals[id].(upVotes := p.upVotes, downVotes := p.downVotes) == p
      && r.next.proposals.Keys == s.proposals.Keys
      && (forall i :: i in s.proposals && i != id ==> r.next.proposals[i] == s.proposals[i])
      && r.next.votes == s.votes[(caller, id) := VoteRecord(support, !support)]
      && r.next.proposalCount == s.proposalCount
      && r.next.gov == s.gov && r.next.pay == s.pay && r.next.config == s.config
  {
    if !IsInvestor(s, caller) then
      Rejected(Unauthorized)
    else if id !in s.proposals then
      Rejected(NotFound)
    else if s.proposals[id].finalized then
      Rejected(AlreadyFinalized)
    else if (caller, id) in s.votes then
      Rejected(AlreadyVoted)
    else
      var p := s.proposals[id];
      var w := Weight(s, caller);
      var p' := if support then p.(upVotes := p.upVotes + w) else p.(downVotes := p.downVotes + w);
      var e := if support then UpVote(id, caller) else DownVote(id, caller);
      Done(s.(proposals := s.proposals[id := p'], votes := s.votes[(caller, id) := VoteRecord(support, !support)]), e)
  }

  /** The successful vote spelled out, for callers that build the new state field by field. */
  lemma VoteStepDone(s: State, caller: Address, id: nat, support: bool)
    requires IsInvestor(s, caller) && id in s.proposals && !s.proposals[id].finalized && (caller, id) !in s.votes
    ensures var p := s.proposals[id];
      var w := Weight(s, caller);
      VoteStep(s, caller, id, support) == Done(
        s.(proposals := s.proposals[id := if support then p.(upVotes := p.upVotes + w) else p.(downVotes := p.downVotes + w)],
           votes := s.votes[(caller, id) := VoteRecord(support, !support)]),
        if support then UpVote(id, caller) else DownVote(id, caller))
  {
  }

  /**
   * `finalizeProposal(id)` sent by `caller`. Up-votes over the quorum approve
   * (and take precedence when both tallies are over it) and pay `amount` pay
   * tokens from the treasury to the recipient; down-votes over the quorum
   * reject without a transfer.
   */
  function FinalizeStep(s: State, caller: Address, id: nat): (r: Outcome)
    ensures r.Done? <==>
      && IsInvestor(s, caller) && id in s.proposals && !s.proposals[id].finalized
      && QuorumReached(s.proposals[id], s.config.quorum)
      && (s.proposals[id].upVotes > s.config.quorum ==> s.proposals[id].amount <= Treasury(s))
    ensures !IsInvestor(s, caller) ==> r == Rejected(Unauthorized)
    ensures IsInvestor(s, caller) && id in s.proposals && s.proposals[id].finalized ==> r == Rejected(AlreadyFinalized)
    ensures (IsInvestor(s, caller) && id in s.proposals && !s.proposals[id].finalized &&
             !QuorumReached(s.proposals[id], s.config.quorum)) ==> r == Rejected(QuorumNotMet)
    ensures r.Done? ==>
      var p := s.proposals[id];
      var approved := p.upVotes > s.config.quorum;
      var t := s.config.treasury;
      && r.event == Finalize(id, approved)
      && id in r.next.proposals
      && r.next.proposals[id] == p.(finalized := true, approved := approved)
      && r.next.proposals.Keys == s.proposals.Keys
      && (forall i :: i in s.proposals && i != id ==> r.next.proposals[i] == s.proposals[i])
      && r.next.votes == s.votes && r.next.gov == s.gov
      && r.next.proposalCount == s.proposalCount && r.next.config == s.config
      && (!approved ==> r.next.pay == s.pay)
      && (approved && p.recipient != t ==>
            BalanceOf(r.next.pay, t) == BalanceOf(s.pay, t) - p.amount &&
            BalanceOf(r.next.pay, p.recipient) == BalanceOf(s.pay, p.recipient) + p.amount)
      && (approved && p.recipient == t ==> BalanceOf(r.next.pay, t) == BalanceOf(s.pay, t))
      && (forall a :: a != t && a != p.recipient ==> BalanceOf(r.next.pay, a) == BalanceOf(s.pay, a))
  {
    if !IsInvestor(s, caller) then
      Rejected(Unauthorized)
    else if id !in s.proposals then
      Rejected(NotFound)
    else if s.proposals[id].finalized then
      Rejected(AlreadyFinalized)
    else
      var p := s.proposals[id];
      if !QuorumReached(p, s.config.quorum) then
        Rejected(QuorumNotMet)
      else if p.upVotes > s.config.quorum then
        match Transfer(s.pay, s.config.treasury, p.recipient, p.amount)
        case None => Rejected(InsufficientTreasury)
        case Some(pay') =>
          Done(s.(proposals := s.proposals[id := p.(finalized := true, approved := true)], pay := pay'), Finalize(id, true))
      else
        Done(s.(proposals := s.proposals[id := p.(finalized := true, approved := false)]), Finalize(id, false))
  }

  /**
   * The read accessors `getUpVote(voter, id)` and `getDownVote(voter, id)`.
   * In a valid ledger a voter has up-voted exactly when a vote is on record that
   * is not a down-vote, and the other way round.
   */
  function GetUpVote(s: State, voter: Address, id: nat): (b: bool)
    ensures b ==> (voter, id) in s.votes
    ensures Valid(s) ==> (b <==> (voter, id) in s.votes && !s.votes[(voter, id)].downVoted)
  {
    (voter, id) in s.votes && s.votes[(voter, id)].upVoted
  }

  function GetDownVote(s: State, voter: Address, id: nat): (b: bool)
    ensures b ==> (voter, id) in s.votes
    ensures Valid(s) ==> (b <==> (voter, id) in s.votes && !s.votes[(voter, id)].upVoted)
  {
    (voter, id) in s.votes && s.votes[(voter, id)].downVoted
  }

  /** After a successful vote the accessors report exactly the direction just voted. */
  lemma VoteIsReported(s: State, voter: Address, id: nat, support: bool)
    requires VoteStep(s, voter, id, support).Done?
    ensures GetUpVote(VoteStep(s, voter, id, support).next, voter, id) == support
    ensures GetDownVote(VoteStep(s, voter, id, support).next, voter, id) == !support
  {
  }

  /** In a valid ledger the two flags are never both set, and one is set exactly when a vote is on record. */
  lemma FlagsMeanRecord(s: State, voter: Address, id: nat)
    requires Valid(s)
    ensures !(GetUpVote(s, voter, id) && GetDownVote(s, voter, id))
    ensures GetUpVote(s, voter, id) || GetDownVote(s, voter, id) <==> (voter, id) in s.votes
  {
  }
}
