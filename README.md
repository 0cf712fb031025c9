# DAO governance: a verified model

This project models a small DAO (decentralised autonomous organisation) of the
Dapp University course and the dashboard that shows its proposals.

- **The contract.** Investors are holders of a positive governance-token balance.
  They create funding proposals, vote on them with their whole current balance,
  and finalize a proposal once its up-votes or its down-votes strictly exceed the
  quorum. An approved proposal pays its `amount` of pay tokens from the DAO's own
  balance (the treasury) to its recipient. A rejected call reverts and changes
  nothing. The Solidity text of the contract is not part of this model. Its
  behaviour is taken from the Hardhat test suite `test/DAO.js`.
- **The dashboard rules.** `src/components/Proposals.js` shortens recipient
  addresses, labels each proposal's status, picks the vote cell, decides when the
  Finalize button appears, and turns a failed vote transaction into an alert.
  The up-vote and the down-vote handlers (lines 61-83 and 85-107) share the same
  alert logic, so one function models both.

The modules are:

- `Ledger`: ERC-20 balances as a map from address to amount.
- `Dao`: the contract as a state machine over values. `CreateStep`, `VoteStep`
  and `FinalizeStep` each return the new state and the event, or the error.
  `Valid` is the ledger invariant.
- `DaoRuns`: arbitrary sequences of calls, interleaved with token transfers
  between holders other than the DAO. The DAO's own address sends tokens only
  through `finalizeProposal`.
  - It proves that the invariant holds in every state reached.
  - It proves that a voter votes at most once on a proposal and that a proposal
    is finalized at most once. A proposal is finalized, and a vote record
    exists, exactly when one such call succeeded.
  - It proves that vote records and finalized proposals never change afterwards,
    that the tallies only grow, and that the treasury falls only through an
    approving finalize, by exactly the proposal's amount.
- `DaoContract`: the contract as a class.
  - Its fields are updated in place: `proposalCount`, the `proposals` and `votes`
    maps, and the event log.
  - `Token` objects hold the balances.
  - Each method is proved to produce exactly the receipt and the new state of the
    matching step function, so every property of module `Dao` holds of the class.
- `DaoScenarios`: the test cases replayed on the class, with the fixture of the
  suite. The fixture has five investors of 200,000 governance tokens each, a
  treasury of 100 pay tokens, and a quorum of 500,000 tokens plus one wei.
- `ProposalsView`: the dashboard rules. The ones that mirror a contract rule are
  proved to agree with module `Dao`.

All amounts are unbounded integers in wei. `tokens(n)` is n·10^18.

Some contract behaviour is not exercised by the test suite. The model fixes it as
follows:

- A proposal of amount zero is rejected with `InsufficientTreasury`.
- A vote or finalize on an id that does not exist is rejected with `NotFound`.
- A vote on a finalized proposal is rejected with `AlreadyFinalized`.
- An approving finalize when the treasury holds less than the amount is rejected
  with `InsufficientTreasury`, because the token transfer reverts.
- When both tallies exceed the quorum, the up-votes win.
- Creation checks `amount` against the DAO's pay-token balance, not against the
  native currency it holds. The fixture funds both with 100, so the tests cannot
  tell the two apart.

The test suite accepts a proposal whose amount equals the whole treasury (the
fixture's 100 tokens), so the amount check is `amount <= treasury`.

## Model

| member | source | states |
|---|---|---|
| Ledger.Credit | test/DAO.js:360-363 | the receiving half of a transfer: the credited holder gains exactly `amount`; every other holder keeps its balance |
| Ledger.Transfer | test/DAO.js:360-363 | succeeds iff the sender holds at least `amount`; the sender loses and the receiver gains exactly `amount`; nobody else changes; a self-transfer changes nothing |
| Dao.Tokens | test/DAO.js:4-8 | `tokens(n)` in wei is a whole multiple of 10^18 from which dividing by 10^18 recovers `n` |
| Dao.Deploy | test/DAO.js:98-103 | deployment keeps the configuration and the token ledgers, starts with no proposals and no votes, and satisfies the ledger invariant |
| Dao.CreateStep | test/DAO.js:132-221 | succeeds iff the caller is an investor, the name and the description are non-empty, the recipient is not the zero address and `0 < amount <= treasury`; a non-investor gets `Unauthorized`, bad arguments `InvalidArgument`, and an amount of zero or above the treasury `InsufficientTreasury`; on success the count becomes count+1, the new proposal holds exactly the given fields with zero tallies, `Propose(id, amount, recipient, creator)` is emitted, and nothing else changes |
| Dao.VoteStep | test/DAO.js:225-327 | succeeds iff the caller is an investor and the proposal exists, is open and has no vote by the caller; a second vote in either direction gets `AlreadyVoted` and a non-investor `Unauthorized`; on success the caller's whole governance balance is added to the chosen tally only, the vote is recorded, `UpVote(id, voter)` or `DownVote(id, voter)` is emitted, and nothing else changes |
| Dao.FinalizeStep | test/DAO.js:331-504 | succeeds iff the caller is an investor, the proposal is open, a tally strictly exceeds the quorum and, when approving, the treasury covers the amount; a non-investor gets `Unauthorized`, a second finalize `AlreadyFinalized` and a tally at or under the quorum `QuorumNotMet`; on success the proposal becomes finalized, approved iff the up-votes exceed the quorum, `Finalize(id, approved)` is emitted, and exactly `amount` moves from the treasury to the recipient on approval (nothing changes when the treasury pays itself), while no pay balance changes on rejection |
| Dao.GetUpVote | src/components/Proposals.js:29 | reports an up-vote only for a recorded pair; in a valid ledger it is set exactly when a vote is on record that is not a down-vote |
| Dao.GetDownVote | src/components/Proposals.js:30 | reports a down-vote only for a recorded pair; in a valid ledger it is set exactly when a vote is on record that is not an up-vote |
| Dao.VoteIsReported | src/components/Proposals.js:29-31 | after a successful vote, `getUpVote` reports exactly an up-vote and `getDownVote` exactly a down-vote by that voter on that proposal |
| Dao.FlagsMeanRecord | src/components/Proposals.js:29-31 | in a valid ledger the two flags are never both set, and one of them is set exactly when the voter has voted on the proposal |
| DaoRuns.CreatePreservesValid | test/DAO.js:137-165 | a successful proposal creation keeps the ledger invariant: the new proposal takes the next id and is well formed |
| DaoRuns.VotePreservesValid | test/DAO.js:239-254 | a successful vote keeps the ledger invariant: the record names an existing proposal and holds exactly one direction |
| DaoRuns.FinalizePreservesValid | test/DAO.js:360-377 | a successful finalize keeps the ledger invariant: an approved proposal is finalized |
| DaoRuns.ApplyPreservesValid | test/DAO.js:132-504 | any one call, or token transfer outside the DAO, keeps the ledger invariant and the configuration |
| DaoRuns.RunPreservesValid | test/DAO.js:132-504 | every state reached by any sequence of calls satisfies the ledger invariant and keeps the configuration set at deployment |
| DaoRuns.ApplyKeepsHistory | test/DAO.js:262-274 | one call keeps every vote record and every proposal, never lowers a tally or the count, and leaves finalized proposals as they are |
| DaoRuns.VoteRecordPersists | test/DAO.js:262-274 | a recorded vote stays recorded, unchanged, after any sequence of calls: no retraction and no switching |
| DaoRuns.FinalizedIsFrozen | test/DAO.js:452-461 | no sequence of calls changes any field of a finalized proposal; the tests exercise only the second finalize, while frozen tallies rest on the model's rejection of a vote on a finalized proposal |
| DaoRuns.AtMostOneVote | test/DAO.js:262-274 | along any sequence of calls at most one vote by a voter on a proposal succeeds, in either direction, and none once a vote is on record |
| DaoRuns.RecordOnlyByVote | test/DAO.js:239-254 | a vote record that one call adds was added by a successful vote of that voter on that proposal |
| DaoRuns.RecordedExactlyOnce | test/DAO.js:262-274 | after any sequence of calls a (voter, proposal) record exists iff it already did or exactly one vote of that voter on that proposal succeeded |
| DaoRuns.AtMostOneFinalize | test/DAO.js:452-461 | along any sequence of calls at most one finalize of a proposal succeeds, and none once it is finalized |
| DaoRuns.FinalizedOnlyByFinalize | test/DAO.js:370-373 | a proposal that one call leaves finalized, and that was not finalized before, was finalized by that call, a successful finalize of that proposal |
| DaoRuns.FinalizedExactlyOnce | test/DAO.js:370-373 | after any sequence of calls a proposal is finalized iff it already was or exactly one finalize of it succeeded: `finalized` stays false until exactly one finalize succeeds |
| DaoRuns.TalliesOnlyGrow | test/DAO.js:245-248 | along any sequence of calls a proposal is never removed, its up- and down-vote tallies never fall, and the count never goes back |
| DaoRuns.TreasuryFallsOnlyOnApproval | test/DAO.js:360-363 | the treasury's pay balance drops only through a successful approving finalize, and then by exactly that proposal's amount |
| DaoContract.Token.constructor | test/DAO.js:36-37 | deployment mints the whole supply to the deployer |
| DaoContract.Token.BalanceOf | test/DAO.js:117 | `balanceOf`: the recorded balance, and zero for a holder that never received tokens |
| DaoContract.Token.Transfer | test/DAO.js:40-43 | succeeds iff the sender's balance covers the amount, and then updates the balances as `Ledger.Transfer` does; otherwise nothing changes |
| DaoContract.DAO.constructor | test/DAO.js:98-103 | the new contract holds the two tokens and the quorum, has no proposals, votes or events, and satisfies the invariant |
| DaoContract.DAO.Receive | test/DAO.js:106 | receiving native currency credits exactly that amount and touches nothing else |
| DaoContract.DAO.CreateProposal | test/DAO.js:132-221 | the receipt, the new fields and the event log are exactly those of `Dao.CreateStep`; a revert changes nothing; the invariant is kept |
| DaoContract.DAO.UpVote | test/DAO.js:225-275 | the receipt, the new fields and the event log are exactly those of an up-vote by `Dao.VoteStep`; a revert changes nothing; the invariant is kept |
| DaoContract.DAO.DownVote | test/DAO.js:278-328 | the receipt, the new fields and the event log are exactly those of a down-vote by `Dao.VoteStep`; a revert changes nothing; the invariant is kept |
| DaoContract.DAO.Cast | test/DAO.js:225-328 | the shared body of both votes, refining `Dao.VoteStep` for either direction |
| DaoContract.DAO.FinalizeProposal | test/DAO.js:331-504 | the receipt, the new fields, the pay-token balances and the event log are exactly those of `Dao.FinalizeStep`; a revert changes nothing; the invariant is kept |
| DaoContract.DAO.GetUpVote | src/components/Proposals.js:29 | the accessor agrees with `Dao.GetUpVote`; in a valid contract it is set exactly when a vote is on record that is not a down-vote |
| DaoContract.DAO.GetDownVote | src/components/Proposals.js:30 | the accessor agrees with `Dao.GetDownVote`; in a valid contract it is set exactly when a vote is on record that is not an up-vote |
| DaoScenarios.GovernanceToken | test/DAO.js:36-63 | the governance token after the fixture's transfers: each investor holds 200,000 tokens, and the user and the deployer hold none |
| DaoScenarios.PayToken | test/DAO.js:66-94 | the pay token after the fixture's transfers: the deployer keeps 995,000 tokens, and the DAO and the recipient hold none |
| DaoScenarios.Fixture | test/DAO.js:10-113 | the deployed and funded DAO satisfies the invariant, holds 100 pay tokens and 100 ether, and has no proposals, votes or events |
| DaoScenarios.FixtureWithProposal | test/DAO.js:228-237 | after investor 1 creates "Proposal 1", proposal 1 is stored open with zero tallies |
| DaoScenarios.DeploymentScenario | test/DAO.js:115-130 | the treasury holds 100 tokens, the token addresses are the deployed ones, and the quorum is 500000000000000000000001 |
| DaoScenarios.CreationScenario | test/DAO.js:137-165 | the count becomes 1, proposal 1 holds the given fields, and `Propose(1, 100 tokens, recipient, investor1)` is emitted |
| DaoScenarios.CreationFailureScenario | test/DAO.js:167-221 | an empty name, an empty description, the zero recipient, an amount of 10,000 tokens and a non-investor are each rejected, and the count stays 0 |
| DaoScenarios.VoteScenario | test/DAO.js:239-254 | one vote adds 200,000 tokens to the chosen tally only and emits its event; the down-vote case is lines 292-307 |
| DaoScenarios.NonInvestorVoteScenario | test/DAO.js:258-260 | a vote by the user, who holds no governance tokens, reverts and leaves both tallies at zero; the down-vote case is lines 311-313 |
| DaoScenarios.SecondVoteScenario | test/DAO.js:262-274 | a second vote by the same investor, in the same or the other direction, reverts and leaves the first vote's tally; the down-vote cases are lines 315-327 |
| DaoScenarios.ApprovalScenario | test/DAO.js:334-377 | three up-votes of 200,000 tokens then finalize: `Finalize(1, true)`, the proposal is finalized and approved, the recipient holds 100 tokens and the treasury none |
| DaoScenarios.RejectionScenario | test/DAO.js:380-417 | three down-votes then finalize: `Finalize(1, false)`, the proposal is finalized and not approved, and no pay token moves |
| DaoScenarios.QuorumNotMetScenario | test/DAO.js:421-443 | two votes of 200,000 tokens in either direction do not exceed the quorum, so finalize reverts and the proposal stays open; the down-vote case is lines 464-486 |
| DaoScenarios.NonInvestorFinalizeScenario | test/DAO.js:445-450 | a finalize by the user reverts even with the quorum met; the down-vote case is lines 488-493 |
| DaoScenarios.SecondFinalizeScenario | test/DAO.js:452-461 | a second finalize reverts with `AlreadyFinalized`, and the proposal keeps every field the first finalize left: its fields, the three votes' tally, finalized, and approved exactly when the votes were up-votes; the down-vote case is lines 495-504 |
| ProposalsView.ShortenAddress | src/components/Proposals.js:6-10 | text of at most eight characters is returned unchanged; a longer one becomes its first four characters, "...", and its last four, eleven characters in all |
| ProposalsView.ShortenIdempotent | src/components/Proposals.js:6-10 | shortening a shortened address changes nothing |
| ProposalsView.ShortenLength | src/components/Proposals.js:8-9 | the result has at most eleven characters, and it is longer than its input exactly for inputs of nine or ten characters |
| ProposalsView.StatusLabel | src/components/Proposals.js:153-157 | "Approved" iff finalized and approved, "Rejected" iff finalized and not approved, "In Progress" iff not finalized |
| ProposalsView.StatusAfterFinalize | src/components/Proposals.js:153-157 | an open proposal reads "In Progress"; after a successful finalize it reads "Approved" exactly when the up-votes exceeded the quorum, and "Rejected" otherwise |
| ProposalsView.VoteCellFor | src/components/Proposals.js:189-212 | blank iff the proposal is finalized or the flags are not fetched; "Voted Yes" iff upVoted; "Voted No" iff downVoted and not upVoted; both buttons iff neither |
| ProposalsView.FetchedFlags | src/components/Proposals.js:29-31 | the flags fetched for an account are both false when it has not voted, and in a valid ledger are exactly its vote record when it has |
| ProposalsView.VoteCellAgreesWithContract | src/components/Proposals.js:189-212 | for an investor, with the flags read from the contract, the buttons show exactly when the contract would accept a vote, and "Voted Yes" or "Voted No" exactly when that vote is on record |
| ProposalsView.ShowFinalize | src/components/Proposals.js:216-222 | the button's predicate: an open proposal with either tally strictly over the quorum (its agreement with the contract is the next row) |
| ProposalsView.Contains | src/components/Proposals.js:70 | `includes`: the empty text is always found, and a text longer than the message never is |
| ProposalsView.FinalizeButtonAgreesWithContract | src/components/Proposals.js:216-222 | for an investor the button shows exactly when the contract's finalize passes its finalized and quorum checks; it then succeeds whenever the treasury covers the amount |
| ProposalsView.ClosingQuote | src/components/Proposals.js:73-75 | finds the quote that ends the lazy capture: everything before it is capturable, and when none is found no later quote is reachable without a quote or line terminator in between |
| ProposalsView.ReasonAt | src/components/Proposals.js:73-75 | the capture at one position is a real match of the regular expression there; when the opener is there but nothing is captured, no later quote is reachable through capturable text |
| ProposalsView.ReasonAtMeaning | src/components/Proposals.js:73-75 | the capture computed at a position is a reason exactly when the regular expression matches there with that reason |
| ProposalsView.MatchesEverywhere | src/components/Proposals.js:73-75 | the computed capture agrees with the regular expression at every position and for every reason |
| ProposalsView.FirstMatch | src/components/Proposals.js:73-75 | returns the leftmost matching position and its capture; no earlier position matches, and when it returns nothing no position matches |
| ProposalsView.ExtractReason | src/components/Proposals.js:70-79 | the generic case happens exactly when the message lacks the phrase; the handler throws exactly when the phrase is there and the expression matches nowhere; an extracted reason is the capture of a match with no match before it, as `match` returns the leftmost one |
| ProposalsView.AlertText | src/components/Proposals.js:70-103 | the handler throws exactly when extraction fails; a message without the phrase gives the generic alert; an extracted reason gives "Transaction rejected with reason '<reason>'" |
| ProposalsView.ExtractsReason | src/components/Proposals.js:70-79 | a message with a capturable reason after the first occurrence of the opener yields exactly that reason |
| ProposalsView.PhraseWithoutOpenerThrows | src/components/Proposals.js:70-75 | a message with the phrase but no opener throws instead of alerting |
| ProposalsView.HardhatMessage | src/components/Proposals.js:70-76 | a Hardhat revert message, a prefix without quotes followed by the opener, the reason and a quote, alerts "Transaction rejected with reason '<reason>'" |
| ProposalsView.UnclosedReasonThrows | src/components/Proposals.js:70-75 | a message with the opener but no closing quote after it, and no quote before it, throws instead of alerting |

## Left out

- The Solidity source of the contract is not part of this model. The model follows the test suite, and the behaviour the suite does not exercise is fixed as described above.
- Token internals are reduced to a balance map with `transfer`. Allowances, events of the tokens, names, symbols and decimals are left out.
- Gas, the transaction signer, `transaction.wait()` and the Hardhat network are left out. A rejected call is a `Revert` receipt.
- Token transfers sent by the DAO's own address other than the payout of `finalizeProposal` are not modelled: `DaoRuns.Apply` treats them as no-ops, since the contract has no other call that moves its tokens.
- Native currency sent to the DAO (test/DAO.js:106) is a plain credit that no governance call spends.
- Weight snapshotting is not modelled: a vote weighs the caller's governance balance at the moment of the vote, and token transfers between votes are allowed in `DaoRuns`.
- The factories of the deployed contracts (`ethers.getContractFactory`), account creation and addresses as hexadecimal strings are left out. Addresses are natural numbers with 0 as the zero address.
- The percentage displays (`/1e24*100`) and `formatEther`, `formatUnits` and `toFixed` use floating point and are left out.
- The React hooks, the fetch loops that fill the vote and balance dictionaries, the signers, the RPC calls and `window.alert` are I/O. The model keeps the decisions they feed: `FetchedFlags` stands for the flags fetched for one proposal, and `AlertText` gives the alert text.
- The error path of the vote-flag fetch (src/components/Proposals.js:32-37) is not modelled: it sets both flags to false, which `VoteCellFor` shows as both buttons.
- The finalize handler (src/components/Proposals.js:109-120) always alerts the generic message on failure, so it has no logic to model.
- scripts/seed.js, scripts/deploy.js and src/components/Info.js are not part of this model. They are deployment scripts and markup.
- ProposalsView.ShortenAddress: JavaScript measures strings in UTF-16 code units, the model in characters. The two agree on hexadecimal addresses.
- ProposalsView.HardhatMessage: the exact Hardhat prefix is not fixed. The lemma holds for every prefix without a quote, which includes Hardhat's wording.
