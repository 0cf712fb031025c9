/**
 * The DAO contract as an object whose fields are updated in place, with the
 * two ERC-20 tokens it reads and pays from. Every method is proved to do what
 * the matching step function of module Dao says, so the properties proved
 * about those functions hold of the contract.
 */
module DaoContract {
  import opened Wrappers
  import opened Ledger
  import opened Dao
  import DaoRuns

  /** What a transaction gives back to its sender: the event it emitted, or the revert. */
  datatype Receipt = Success(event: Event) | Revert(error: Error)

  /** An ERC-20 token, reduced to its balances. */
  class Token {
    const address: Address
    var balances: Balances

    /** Deployment mints the whole supply to the deployer. */
    constructor (address: Address, deployer: Address, supply: nat)
      ensures this.address == address
      ensures balances == map[deployer := supply]
    {
      this.address := address;
      balances := map[deployer := supply];
    }

    /** `balanceOf(holder)`: a holder that never received tokens holds zero. */
    function BalanceOf(holder: Address): (n: nat)
      reads this
      ensures holder !in balances ==> n == 0
      ensures holder in balances ==> n == balances[holder]
    {
      Ledger.BalanceOf(balances, holder)
    }

    /** `transfer(to, amount)` sent by `from`; reverts when `from` holds too little. */
    method Transfer(from: Address, to: Address, amount: nat) returns (ok: bool)
      modifies this
      ensures ok <==> amount <= Ledger.BalanceOf(old(balances), from)
      ensures balances == if ok then Ledger.Transfer(old(balances), from, to, amount).value else old(balances)
    {
      var moved := Ledger.Transfer(balances, from, to, amount);
      ok := moved.Some?;
      if ok {
        balances := moved.value;
      }
    }
  }

  class DAO {
    const govToken: Token
    const payToken: Token
    const quorum: nat
    /** The DAO's own address: the holder of the treasury. */
    const address: Address

    var proposalCount: nat
    var proposals: map<nat, Proposal>
    var votes: map<(Address, nat), VoteRecord>
    /** Native currency sent to the contract; never spent by the governance calls. */
    var etherBalance: nat
    /** The events emitted so far, oldest first. */
    var events: seq<Event>

    /** The contract's state as a value of module Dao. */
    function View(): Dao.State
      reads this, govToken, payToken
    {
      Dao.State(Config(govToken.address, payToken.address, quorum, address),
                proposalCount, proposals, votes, govToken.balances, payToken.balances)
    }

    ghost predicate Valid()
      reads this, govToken, payToken
    {
      govToken != payToken && Dao.Valid(View())
    }

    /** The receipt and the new state are those of the step's outcome; a revert changes nothing. */
    ghost predicate Reflects(o: Outcome, r: Receipt, before: Dao.State, log: seq<Event>)
      reads this, govToken, payToken
    {
      match o
      case Done(next, e) => r == Success(e) && View() == next && events == log + [e]
      case Rejected(err) => r == Revert(err) && View() == before && events == log
    }

    /** `DAO.deploy(govToken, quorum, payToken)`. */
    constructor (govToken: Token, quorum: nat, payToken: Token, address: Address)
      requires govToken != payToken
      ensures Valid()
      ensures this.govToken == govToken && this.payToken == payToken
      ensures View() == Deploy(Config(govToken.address, payToken.address, quorum, address),
                               govToken.balances, payToken.balances)
      ensures etherBalance == 0 && events == []
    {
      this.govToken := govToken;
      this.payToken := payToken;
      this.quorum := quorum;
      this.address := address;
      proposalCount := 0;
      proposals := map[];
      votes := map[];
      etherBalance := 0;
      events := [];
    }

    /** Receiving native currency: an unconditional credit to the treasury. */
    method Receive(amount: nat)
      modifies this`etherBalance
      ensures etherBalance == old(etherBalance) + amount
    {
      etherBalance := etherBalance + amount;
    }

    method CreateProposal(caller: Address, name: string, description: string, amount: nat, recipient: Address)
      returns (r: Receipt)
      requires Valid()
      modifies this
      ensures Valid()
      ensures Reflects(CreateStep(old(View()), caller, name, description, amount, recipient), r, old(View()), old(events))
      ensures etherBalance == old(etherBalance)
    {
      ghost var before := View();
      if govToken.BalanceOf(caller) == 0 {
        return Revert(Unauthorized);
      }
      if name == [] || description == [] || recipient == ZeroAddress {
        return Revert(InvalidArgument);
      }
      if amount == 0 || amount > payToken.BalanceOf(address) {
        return Revert(InsufficientTreasury);
      }
      var id := proposalCount + 1;
      proposalCount := id;
      proposals := proposals[id := Proposal(id, name, description, amount, recipient, 0, 0, false, false)];
      var e := Propose(id, amount, recipient, caller);
      events := events + [e];
      r := Success(e);
      assert CreateStep(before, caller, name, description, amount, recipient) == Done(View(), e);
      DaoRuns.CreatePreservesValid(before, caller, name, description, amount, recipient);
    }

    method UpVote(caller: Address, id: nat) returns (r: Receipt)
      requires Valid()
      modifies this
      ensures Valid()
      ensures Reflects(VoteStep(old(View()), caller, id, true), r, old(View()), old(events))
      ensures etherBalance == old(etherBalance)
    {
      r := Cast(caller, id, true);
    }

    method DownVote(caller: Address, id: nat) returns (r: Receipt)
      requires Valid()
      modifies this
      ensures Valid()
      ensures Reflects(VoteStep(old(View()), caller, id, false), r, old(View()), old(events))
      ensures etherBalance == old(etherBalance)
    {
      r := Cast(caller, id, false);
    }

    /** The body shared by `upVote` and `downVote`. */
    method Cast(caller: Address, id: nat, support: bool) returns (r: Receipt)
      requires Valid()
      modifies this
      ensures Valid()
      ensures Reflects(VoteStep(old(View()), caller, id, support), r, old(View()), old(events))
      ensures etherBalance == old(etherBalance)
    {
      ghost var before := View();
      var weight := govToken.BalanceOf(caller);
      if weight == 0 {
        return Revert(Unauthorized);
      }
      if id !in proposals {
        return Revert(NotFound);
      }
      var p := proposals[id];
      if p.finalized {
        return Revert(AlreadyFinalized);
      }
      if (caller, id) in votes {
        return Revert(AlreadyVoted);
      }
      var p' := if support then p.(upVotes := p.upVotes + weight) else p.(downVotes := p.downVotes + weight);
      var e := if support then Event.UpVote(id, caller) else Event.DownVote(id, caller);
      proposals := proposals[id := p'];
      votes := votes[(caller, id) := VoteRecord(support, !support)];
      events := events + [e];
      r := Success(e);
      VoteStepDone(before, caller, id, support);
      assert VoteStep(before, caller, id, support) == Done(View(), e);
      DaoRuns.VotePreservesValid(before, caller, id, support);
    }

    method FinalizeProposal(caller: Address, id: nat) returns (r: Receipt)
      requires Valid()
      modifies this, payToken
      ensures Valid()
      ensures Reflects(FinalizeStep(old(View()), caller, id), r, old(View()), old(events))
      ensures etherBalance == old(etherBalance)
    {
      ghost var before := View();
      if govToken.BalanceOf(caller) == 0 {
        return Revert(Unauthorized);
      }
      if id !in proposals {
        return Revert(NotFound);
      }
      var p := proposals[id];
      if p.finalized {
        return Revert(AlreadyFinalized);
      }
      if !(p.upVotes > quorum || p.downVotes > quorum) {
        return Revert(QuorumNotMet);
      }
      var approved := p.upVotes > quorum;
      if approved {
        var sent := payToken.Transfer(address, p.recipient, p.amount);
        if !sent {
          return Revert(InsufficientTreasury);
        }
      }
      proposals := proposals[id := p.(finalized := true, approved := approved)];
      var e := Finalize(id, approved);
      events := events + [e];
      r := Success(e);
      assert FinalizeStep(before, caller, id) == Done(View(), e);
      DaoRuns.FinalizePreservesValid(before, caller, id);
    }

    /** `getUpVote(voter, id)`. */
    function GetUpVote(voter: Address, id: nat): (b: bool)
      reads this, govToken, payToken
      ensures b == Dao.GetUpVote(View(), voter, id)
      ensures Valid() ==> (b <==> (voter, id) in votes && !votes[(voter, id)].downVoted)
    {
      (voter, id) in votes && votes[(voter, id)].upVoted
    }

    /** `getDownVote(voter, id)`. */
    function GetDownVote(voter: Address, id: nat): (b: bool)
      reads this, govToken, payToken
      ensures b == Dao.GetDownVote(View(), voter, id)
      ensures Valid() ==> (b <==> (voter, id) in votes && !votes[(voter, id)].upVoted)
    {
      (voter, id) in votes && votes[(voter, id)].downVoted
    }
  }
}
