/**
 * The test suite's cases replayed on the contract objects: the fixture
 * (two tokens of 1,000,000 whole tokens each, five investors with 200,000
 * governance tokens, a quorum of 500,000 tokens plus one wei, a treasury of
 * 100 pay tokens), then each case's calls, with what the case expects stated
 * as postconditions.
 */
module DaoScenarios {
  import opened Ledger
  import opened Dao
  import opened DaoContract

  const Deployer: Address := 1
  const Funder: Address := 2
  const Investor1: Address := 3
  const Investor2: Address := 4
  const Investor3: Address := 5
  const Investor4: Address := 6
  const Investor5: Address := 7
  const Recipient: Address := 8
  const User: Address := 9
  const DaoAddress: Address := 10
  const GovAddress: Address := 11
  const PayAddress: Address := 12

  /** The deployment argument '500000000000000000000001'. */
  const Quorum: nat := 500000000000000000000001

  /** The balances the fixture leaves: 200,000 governance tokens per investor, none for `User`, 100 pay tokens in the treasury. */
  ghost predicate Funded(s: State)
  {
    && s.config == Config(GovAddress, PayAddress, Quorum, DaoAddress)
    && Weight(s, Investor1) == Tokens(200000)
    && Weight(s, Investor2) == Tokens(200000)
    && Weight(s, Investor3) == Tokens(200000)
    && Weight(s, Investor4) == Tokens(200000)
    && Weight(s, Investor5) == Tokens(200000)
    && Weight(s, User) == 0
    && Treasury(s) == Tokens(100)
    && BalanceOf(s.pay, Recipient) == 0
  }

  /** The governance token: 1,000,000 tokens minted to the deployer, 200,000 of them sent to each investor. */
  method GovernanceToken() returns (gov: Token)
    ensures fresh(gov)
    ensures gov.address == GovAddress
    ensures forall a :: a in {Investor1, Investor2, Investor3, Investor4, Investor5} ==>
      gov.BalanceOf(a) == Tokens(200000)
    ensures gov.BalanceOf(User) == 0 && gov.BalanceOf(Deployer) == 0
  {
    gov := new Token(GovAddress, Deployer, Tokens(1000000));
    var ok := gov.Transfer(Deployer, Investor1, Tokens(200000));
    assert gov.BalanceOf(Deployer) == Tokens(800000);
    ok := gov.Transfer(Deployer, Investor2, Tokens(200000));
    assert gov.BalanceOf(Deployer) == Tokens(600000);
    ok := gov.Transfer(Deployer, Investor3, Tokens(200000));
    assert gov.BalanceOf(Deployer) == Tokens(400000);
    ok := gov.Transfer(Deployer, Investor4, Tokens(200000));
    assert gov.BalanceOf(Deployer) == Tokens(200000);
    ok := gov.Transfer(Deployer, Investor5, Tokens(200000));
  }

  /** The pay token: 1,000,000 tokens minted to the deployer, 1,000 of them sent to each investor. */
  method PayToken() returns (pay: Token)
    ensures fresh(pay)
    ensures pay.address == PayAddress
    ensures pay.BalanceOf(Deployer) == Tokens(995000)
    ensures pay.BalanceOf(DaoAddress) == 0 && pay.BalanceOf(Recipient) == 0
  {
    pay := new Token(PayAddress, Deployer, Tokens(1000000));
    var ok := pay.Transfer(Deployer, Investor1, Tokens(1000));
    assert pay.BalanceOf(Deployer) == Tokens(999000);
    ok := pay.Transfer(Deployer, Investor2, Tokens(1000));
    assert pay.BalanceOf(Deployer) == Tokens(998000);
    ok := pay.Transfer(Deployer, Investor3, Tokens(1000));
    assert pay.BalanceOf(Deployer) == Tokens(997000);
    ok := pay.Transfer(Deployer, Investor4, Tokens(1000));
    assert pay.BalanceOf(Deployer) == Tokens(996000);
    ok := pay.Transfer(Deployer, Investor5, Tokens(1000));
  }

  /** The shared fixture: both tokens, the DAO, and 100 ether and 100 pay tokens sent to it. */
  method Fixture() returns (dao: DAO)
    ensures fresh(dao) && fresh(dao.govToken) && fresh(dao.payToken)
    ensures dao.Valid() && Funded(dao.View())
    ensures dao.proposalCount == 0 && dao.proposals == map[] && dao.votes == map[] && dao.events == []
    ensures dao.etherBalance == Tokens(100)
  {
    var gov := GovernanceToken();
    var pay := PayToken();
    dao := new DAO(gov, Quorum, pay, DaoAddress);
    dao.Receive(Tokens(100));
    var ok := pay.Transfer(Deployer, DaoAddress, Tokens(100));
    assert gov.BalanceOf(Investor1) == Tokens(200000);
    assert gov.BalanceOf(Investor2) == Tokens(200000);
    assert gov.BalanceOf(Investor3) == Tokens(200000);
    assert gov.BalanceOf(Investor4) == Tokens(200000);
    assert gov.BalanceOf(Investor5) == Tokens(200000);
  }

  /** The fixture followed by investor 1 creating "Proposal 1" for 100 pay tokens. */
  method FixtureWithProposal() returns (dao: DAO)
    ensures fresh(dao) && fresh(dao.govToken) && fresh(dao.payToken)
    ensures dao.Valid() && Funded(dao.View())
    ensures dao.proposalCount == 1 && dao.votes == map[]
    ensures dao.proposals == map[1 := Proposal(1, "Proposal 1", "First proposal", Tokens(100), Recipient, 0, 0, false, false)]
  {
    dao := Fixture();
    var r := dao.CreateProposal(Investor1, "Proposal 1", "First proposal", Tokens(100), Recipient);
  }

  /** Deployment: the treasury, the token addresses and the quorum. */
  method DeploymentScenario() returns (treasury: nat, gov: Address, pay: Address, quorum: nat)
    ensures treasury == Tokens(100)
    ensures gov == GovAddress && pay == PayAddress
    ensures quorum == Tokens(500000) + 1
  {
    var dao := Fixture();
    treasury := dao.payToken.BalanceOf(dao.address);
    gov := dao.govToken.address;
    pay := dao.payToken.address;
    quorum := dao.quorum;
  }

  /** A proposal whose amount is the whole treasury is accepted as proposal 1. */
  method CreationScenario() returns (count: nat, p: Proposal, r: Receipt)
    ensures count == 1
    ensures p == Proposal(1, "Proposal 1", "First proposal", Tokens(100), Recipient, 0, 0, false, false)
    ensures r == Success(Propose(1, Tokens(100), Recipient, Investor1))
  {
    var dao := Fixture();
    r := dao.CreateProposal(Investor1, "Proposal 1", "First proposal", Tokens(100), Recipient);
    count := dao.proposalCount;
    p := dao.proposals[1];
  }

  /** Empty name, empty description, zero recipient, too large an amount, a non-investor: all revert. */
  method CreationFailureScenario() returns (results: seq<Receipt>, count: nat)
    ensures results == [Revert(InvalidArgument), Revert(InvalidArgument), Revert(InvalidArgument),
                        Revert(InsufficientTreasury), Revert(Unauthorized)]
    ensures count == 0
  {
    var dao := Fixture();
    var a := dao.CreateProposal(Investor1, "", "no name", Tokens(100), Recipient);
    var b := dao.CreateProposal(Investor1, "Proposal 1", "", Tokens(100), Recipient);
    var c := dao.CreateProposal(Investor1, "Proposal 1", "bad recipient", Tokens(100), ZeroAddress);
    var d := dao.CreateProposal(Investor1, "Proposal 1", "bad amount", Tokens(10000), Recipient);
    var e := dao.CreateProposal(User, "Proposal 1", "non-investor", Tokens(100), Recipient);
    results := [a, b, c, d, e];
    count := dao.proposalCount;
  }

  /** A vote adds the voter's 200,000 tokens to the chosen tally and emits the matching event. */
  method VoteScenario(support: bool) returns (upVotes: nat, downVotes: nat, r: Receipt)
    ensures upVotes == (if support then Tokens(200000) else 0)
    ensures downVotes == (if support then 0 else Tokens(200000))
    ensures r == Success(if support then Event.UpVote(1, Investor1) else Event.DownVote(1, Investor1))
  {
    var dao := FixtureWithProposal();
    if support {
      r := dao.UpVote(Investor1, 1);
    } else {
      r := dao.DownVote(Investor1, 1);
    }
    upVotes := dao.proposals[1].upVotes;
    downVotes := dao.proposals[1].downVotes;
  }

  /** A non-investor cannot vote. */
  method NonInvestorVoteScenario(support: bool) returns (r: Receipt, upVotes: nat, downVotes: nat)
    ensures r == Revert(Unauthorized)
    ensures upVotes == 0 && downVotes == 0
  {
    var dao := FixtureWithProposal();
    if support {
      r := dao.UpVote(User, 1);
    } else {
      r := dao.DownVote(User, 1);
    }
    upVotes := dao.proposals[1].upVotes;
    downVotes := dao.proposals[1].downVotes;
  }

  /**
   * A second vote by the same investor on the same proposal reverts whether it
   * repeats or switches direction, and leaves the tallies as the first vote made them.
   */
  method SecondVoteScenario(first: bool, second: bool) returns (r: Receipt, upVotes: nat, downVotes: nat)
    ensures r == Revert(AlreadyVoted)
    ensures upVotes == (if first then Tokens(200000) else 0)
    ensures downVotes == (if first then 0 else Tokens(200000))
  {
    var dao := FixtureWithProposal();
    var r1 := Send(dao, Investor1, first);
    r := Send(dao, Investor1, second);
    upVotes := dao.proposals[1].upVotes;
    downVotes := dao.proposals[1].downVotes;
  }

  /** The test's `upVote(id)` when `support`, its `downVote(id)` otherwise, on proposal 1. */
  method Send(dao: DAO, voter: Address, support: bool) returns (r: Receipt)
    requires dao.Valid()
    modifies dao
    ensures dao.Valid()
    ensures dao.Reflects(VoteStep(old(dao.View()), voter, 1, support), r, old(dao.View()), old(dao.events))
    ensures dao.etherBalance == old(dao.etherBalance)
  {
    if support {
      r := dao.UpVote(voter, 1);
    } else {
      r := dao.DownVote(voter, 1);
    }
  }

  /** Proposal 1 is the fixture's proposal, still open, with `k` investors' votes in direction `support`. */
  ghost predicate Tallied(dao: DAO, support: bool, k: nat)
    reads dao
  {
    && 1 in dao.proposals
    && dao.proposals[1] == Proposal(1, "Proposal 1", "First proposal", Tokens(100), Recipient,
                                    if support then k * Tokens(200000) else 0,
                                    if support then 0 else k * Tokens(200000), false, false)
  }

  /** One more investor votes in direction `support` on proposal 1. */
  method VoteOnce(dao: DAO, voter: Address, support: bool, ghost k: nat)
    requires dao.Valid() && Funded(dao.View()) && Tallied(dao, support, k)
    requires Weight(dao.View(), voter) == Tokens(200000) && (voter, 1) !in dao.votes
    modifies dao
    ensures dao.Valid() && Funded(dao.View()) && Tallied(dao, support, k + 1)
    ensures dao.votes == old(dao.votes)[(voter, 1) := VoteRecord(support, !support)]
  {
    var r := Send(dao, voter, support);
  }

  /** Investors 1 to `voters` all vote in direction `support` on proposal 1. */
  method VoteBy(dao: DAO, voters: nat, support: bool)
    requires dao.Valid() && Funded(dao.View()) && 1 <= voters <= 3
    requires Tallied(dao, support, 0) && dao.votes == map[]
    modifies dao
    ensures dao.Valid() && Funded(dao.View()) && Tallied(dao, support, voters)
  {
    VoteOnce(dao, Investor1, support, 0);
    if voters >= 2 {
      VoteOnce(dao, Investor2, support, 1);
    }
    if voters == 3 {
      VoteOnce(dao, Investor3, support, 2);
    }
  }

  /** Three up-votes (600,000 tokens) finalize as approved and pay the recipient 100 pay tokens. */
  method ApprovalScenario() returns (r: Receipt, p: Proposal, recipientBalance: nat, treasury: nat)
    ensures r == Success(Finalize(1, true))
    ensures p.finalized && p.approved
    ensures recipientBalance == Tokens(100) && treasury == 0
  {
    var dao := FixtureWithProposal();
    VoteBy(dao, 3, true);
    r := dao.FinalizeProposal(Investor1, 1);
    p := dao.proposals[1];
    recipientBalance := dao.payToken.BalanceOf(Recipient);
    treasury := dao.payToken.BalanceOf(DaoAddress);
  }

  /** Three down-votes finalize as not approved, and no pay token moves. */
  method RejectionScenario() returns (r: Receipt, p: Proposal, recipientBalance: nat, treasury: nat)
    ensures r == Success(Finalize(1, false))
    ensures p.finalized && !p.approved
    ensures recipientBalance == 0 && treasury == Tokens(100)
  {
    var dao := FixtureWithProposal();
    VoteBy(dao, 3, false);
    r := dao.FinalizeProposal(Investor1, 1);
    p := dao.proposals[1];
    recipientBalance := dao.payToken.BalanceOf(Recipient);
    treasury := dao.payToken.BalanceOf(DaoAddress);
  }

  /** Two votes in either direction (400,000 tokens) do not exceed the quorum: finalize reverts. */
  method QuorumNotMetScenario(support: bool) returns (r: Receipt, finalized: bool)
    ensures r == Revert(QuorumNotMet)
    ensures !finalized
  {
    var dao := FixtureWithProposal();
    VoteBy(dao, 2, support);
    r := dao.FinalizeProposal(Investor1, 1);
    finalized := dao.proposals[1].finalized;
  }

  /** With the quorum exceeded, a non-investor still cannot finalize. */
  method NonInvestorFinalizeScenario(support: bool) returns (r: Receipt, finalized: bool)
    ensures r == Revert(Unauthorized)
    ensures !finalized
  {
    var dao := FixtureWithProposal();
    VoteBy(dao, 3, support);
    r := dao.FinalizeProposal(User, 1);
    finalized := dao.proposals[1].finalized;
  }

  /** A second finalize reverts and leaves the first one's outcome in place. */
  method SecondFinalizeScenario(support: bool) returns (r: Receipt, p: Proposal)
    ensures r == Revert(AlreadyFinalized)
    ensures p == Proposal(1, "Proposal 1", "First proposal", Tokens(100), Recipient,
                          if support then 3 * Tokens(200000) else 0,
                          if support then 0 else 3 * Tokens(200000), true, support)
  {
    var dao := FixtureWithProposal();
    VoteBy(dao, 3, support);
    var first := dao.FinalizeProposal(Investor1, 1);
    r := dao.FinalizeProposal(Investor1, 1);
    p := dao.proposals[1];
  }
}
