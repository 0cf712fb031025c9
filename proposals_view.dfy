/**
 * The decisions the proposals table of the dashboard makes for each row:
 * how a recipient address is shortened, which status label and which vote
 * cell are shown, when the Finalize button appears, and what a failed vote
 * transaction reports. Each rule that mirrors a contract rule is proved
 * to agree with module Dao.
 */
module ProposalsView {
  import opened Wrappers
  import opened Ledger
  import opened Dao

  // ---------------------------------------------------------------------------
  // Address shortening

  /** At most eight characters are shown as they are; longer ones as first four, "...", last four. */
  function ShortenAddress(s: string): (r: string)
    ensures |s| <= 8 ==> r == s
    ensures |s| > 8 ==> |r| == 11 && r[..4] == s[..4] && r[4..7] == "..." && r[7..] == s[|s| - 4..]
  {
    if |s| <= 8 then s else s[..4] + "..." + s[|s| - 4..]
  }

  /** Shortening is idempotent: a shortened address is shown as it is. */
  lemma ShortenIdempotent(s: string)
    ensures ShortenAddress(ShortenAddress(s)) == ShortenAddress(s)
  {
    var r := ShortenAddress(s);
    if |s| > 8 {
      assert r == r[..4] + r[4..7] + r[7..];
    }
  }

  /** The result is never longer than eleven characters, and it is longer than the input only for nine- and ten-character inputs. */
  lemma ShortenLength(s: string)
    ensures |ShortenAddress(s)| <= 11
    ensures |ShortenAddress(s)| > |s| <==> 9 <= |s| <= 10
  {
  }

  // ---------------------------------------------------------------------------
  // Status label

  function StatusLabel(finalized: bool, approved: bool): (shown: string)
    ensures shown == "Approved" <==> finalized && approved
    ensures shown == "Rejected" <==> finalized && !approved
    ensures shown == "In Progress" <==> !finalized
  {
    if finalized && approved then "Approved"
    else if finalized && !approved then "Rejected"
    else "In Progress"
  }

  /**
   * After a successful finalize, the row reads "Approved" exactly when the
   * up-votes exceeded the quorum, and "Rejected" otherwise; before it, every
   * proposal of a valid ledger reads "In Progress".
   */
  lemma StatusAfterFinalize(s: State, caller: Address, id: nat)
    requires Valid(s) && FinalizeStep(s, caller, id).Done?
    ensures id in s.proposals
    ensures StatusLabel(s.proposals[id].finalized, s.proposals[id].approved) == "In Progress"
    ensures var p := FinalizeStep(s, caller, id).next.proposals[id];
      StatusLabel(p.finalized, p.approved) == (if s.proposals[id].upVotes > s.config.quorum then "Approved" else "Rejected")
  {
  }

  // ---------------------------------------------------------------------------
  // Vote cell

  datatype VoteCell = Blank | VotedYes | VotedNo | VoteButtons

  /**
   * The cell for a proposal, given the account's vote flags if they have been
   * fetched (None before the fetch completes).
   */
  function VoteCellFor(finalized: bool, flags: Option<VoteRecord>): (c: VoteCell)
    ensures c == Blank <==> finalized || flags.None?
    ensures c == VotedYes <==> !finalized && flags.Some? && flags.value.upVoted
    ensures c == VotedNo <==> !finalized && flags.Some? && !flags.value.upVoted && flags.value.downVoted
    ensures c == VoteButtons <==> !finalized && flags.Some? && !flags.value.upVoted && !flags.value.downVoted
  {
    if finalized || flags.None? then Blank
    else if flags.value.upVoted then VotedYes
    else if flags.value.downVoted then VotedNo
    else VoteButtons
  }

  /** The flags the dashboard fetches for `account` with `getUpVote` and `getDownVote`. */
  function FetchedFlags(s: State, account: Address, id: nat): (f: VoteRecord)
    ensures (account, id) !in s.votes ==> !f.upVoted && !f.downVoted
    ensures Valid(s) && (account, id) in s.votes ==> f == s.votes[(account, id)]
  {
    VoteRecord(GetUpVote(s, account, id), GetDownVote(s, account, id))
  }

  /**
   * For an investor, the vote buttons are shown exactly when the contract
   * would accept a vote in either direction, and "Voted Yes" / "Voted No"
   * exactly when the account's recorded vote is that one.
   */
  lemma VoteCellAgreesWithContract(s: State, account: Address, id: nat, support: bool)
    requires Valid(s) && id in s.proposals && IsInvestor(s, account)
    ensures var c := VoteCellFor(s.proposals[id].finalized, Some(FetchedFlags(s, account, id)));
      && (c == VoteButtons <==> VoteStep(s, account, id, support).Done?)
      && (c == VotedYes <==> !s.proposals[id].finalized && (account, id) in s.votes && s.votes[(account, id)].upVoted)
      && (c == VotedNo <==> !s.proposals[id].finalized && (account, id) in s.votes && s.votes[(account, id)].downVoted)
  {
    if (account, id) in s.votes {
      assert s.votes[(account, id)].upVoted != s.votes[(account, id)].downVoted;
    }
  }

  // ---------------------------------------------------------------------------
  // Finalize button

  /** The Finalize button is shown for an open proposal whose up- or down-votes strictly exceed the quorum. */
  function ShowFinalize(finalized: bool, upVotes: nat, downVotes: nat, quorum: nat): (show: bool)
    ensures show <==> !finalized && (upVotes > quorum || downVotes > quorum)
  {
    !finalized && (upVotes > quorum || downVotes > quorum)
  }

  /**
   * For an investor, the button is shown exactly when the contract's finalize
   * passes its finalized and quorum checks: the call then succeeds, unless the
   * up-votes approve and the treasury no longer holds the amount.
   */
  lemma FinalizeButtonAgreesWithContract(s: State, caller: Address, id: nat)
    requires id in s.proposals && IsInvestor(s, caller)
    ensures var p := s.proposals[id];
      ShowFinalize(p.finalized, p.upVotes, p.downVotes, s.config.quorum) <==>
        FinalizeStep(s, caller, id).Done? || FinalizeStep(s, caller, id) == Rejected(InsufficientTreasury)
    ensures var p := s.proposals[id];
      ShowFinalize(p.finalized, p.upVotes, p.downVotes, s.config.quorum) && p.amount <= Treasury(s) ==>
        FinalizeStep(s, caller, id).Done?
  {
  }

  // ---------------------------------------------------------------------------
  // Revert reasons

  /** What the handlers test the error message for. */
  const ReasonPhrase: string := "reverted with reason string"

  /** The literal part of the regular expression that precedes the captured reason. */
  const ReasonOpener: string := ReasonPhrase + " '"

  const GenericAlert: string := "User rejected or transaction reverted"

  /** The characters that `.` in a JavaScript regular expression does not match. */
  predicate IsLineTerminator(c: char)
  {
    c == '\n' || c == '\r' || c == '\U{2028}' || c == '\U{2029}'
  }

  predicate OccursAt(s: string, t: string, k: nat)
  {
    k + |t| <= |s| && s[k..k + |t|] == t
  }

  /** `s.includes(t)`. */
  predicate Contains(s: string, t: string)
    ensures t == [] ==> Contains(s, t)
    ensures Contains(s, t) ==> |t| <= |s|
    ensures OccursAt(s, t, 0) ==> Contains(s, t)
  {
    assert t == [] ==> OccursAt(s, t, 0);
    exists k: nat :: k <= |s| && OccursAt(s, t, k)
  }

  /** A text the lazy group `(.*?)` can capture: no quote (which would end it earlier) and no line terminator. */
  predicate Capturable(reason: string)
  {
    forall t :: 0 <= t < |reason| ==> reason[t] != '\'' && !IsLineTerminator(reason[t])
  }

  /** The regular expression matches at `k` capturing `reason`. */
  predicate MatchesAt(msg: string, k: nat, reason: string)
  {
    OccursAt(msg, ReasonOpener + reason + "'", k) && Capturable(reason)
  }

  /** The index of the quote that ends the capture begun at `j`, if one comes before any line terminator. */
  function ClosingQuote(msg: string, j: nat): (r: Option<nat>)
    decreases |msg| - j
    ensures r.Some? ==> j <= r.value < |msg| && msg[r.value] == '\'' && Capturable(msg[j..r.value])
    ensures r.None? ==> forall k :: j <= k < |msg| && msg[k] == '\'' ==> !Capturable(msg[j..k])
  {
    if j >= |msg| then None
    else if msg[j] == '\'' then Some(j)
    else if IsLineTerminator(msg[j]) then
      assert forall k :: j < k < |msg| ==> msg[j..k][0] == msg[j];
      None
    else
      var r := ClosingQuote(msg, j + 1);
      if r.Some? then
        assert msg[j..r.value] == [msg[j]] + msg[j + 1..r.value];
        r
      else
        assert forall k :: j < k < |msg| ==> msg[j..k] == [msg[j]] + msg[j + 1..k];
        r
  }

  /** The reason captured when the match starts at `k`, if the expression matches there. */
  function ReasonAt(msg: string, k: nat): (r: Option<string>)
    ensures r.Some? ==> MatchesAt(msg, k, r.value)
    ensures r.None? && OccursAt(msg, ReasonOpener, k) ==>
      forall q :: k + |ReasonOpener| <= q < |msg| && msg[q] == '\'' ==> !Capturable(msg[k + |ReasonOpener|..q])
  {
    if OccursAt(msg, ReasonOpener, k) then
      match ClosingQuote(msg, k + |ReasonOpener|)
      case Some(q) =>
        assert msg[k..q + 1] == msg[k..k + |ReasonOpener|] + msg[k + |ReasonOpener|..q] + [msg[q]];
        Some(msg[k + |ReasonOpener|..q])
      case None => None
    else None
  }

  /** `ReasonAt` is the regular expression's meaning at one position, in both directions. */
  lemma ReasonAtMeaning(msg: string, k: nat, reason: string)
    ensures ReasonAt(msg, k) == Some(reason) <==> MatchesAt(msg, k, reason)
  {
    var n := |ReasonOpener|;
    if MatchesAt(msg, k, reason) {
      var w := ReasonOpener + reason + "'";
      assert msg[k..k + |w|] == w;
      assert msg[k..k + n] == w[..n];
      var q := k + n + |reason|;
      assert msg[q] == w[|w| - 1];
      assert msg[k + n..q] == w[n..n + |reason|] == reason;
      ClosingQuoteIsFirst(msg, k + n, q);
    }
  }

  /** `ReasonAtMeaning` at every position at once. */
  lemma MatchesEverywhere(msg: string)
    ensures forall k: nat, reason: string :: ReasonAt(msg, k) == Some(reason) <==> MatchesAt(msg, k, reason)
  {
    forall k: nat, reason: string
      ensures ReasonAt(msg, k) == Some(reason) <==> MatchesAt(msg, k, reason)
    {
      ReasonAtMeaning(msg, k, reason);
    }
  }

  /** A quote reached from `j` through capturable text is the quote `ClosingQuote` finds. */
  lemma {:induction false} ClosingQuoteIsFirst(msg: string, j: nat, q: nat)
    requires j <= q < |msg| && msg[q] == '\'' && Capturable(msg[j..q])
    ensures ClosingQuote(msg, j) == Some(q)
    decreases q - j
  {
    if j < q {
      assert msg[j] == msg[j..q][0];
      assert msg[j + 1..q] == msg[j..q][1..];
      ClosingQuoteIsFirst(msg, j + 1, q);
    }
  }

  /** The leftmost position at or after `i` where the expression matches, with its capture. */
  function FirstMatch(msg: string, i: nat): (r: Option<(nat, string)>)
    decreases |msg| - i
    ensures r.Some? ==> i <= r.value.0 && ReasonAt(msg, r.value.0) == Some(r.value.1)
    ensures r.Some? ==> forall k :: i <= k < r.value.0 ==> ReasonAt(msg, k).None?
    ensures r.None? ==> forall k :: i <= k ==> ReasonAt(msg, k).None?
  {
    if i + |ReasonOpener| > |msg| then None
    else
      match ReasonAt(msg, i)
      case Some(reason) => Some((i, reason))
      case None => FirstMatch(msg, i + 1)
  }

  /** What a failed vote transaction leads to. */
  datatype Extraction =
    | Reason(reason: string)   // alert "Transaction rejected with reason '<reason>'"
    | NoReason                 // alert with the generic message
    | TypeError                // the phrase is there but the expression does not match: `[1]` of null throws

  /** The catch blocks of the up- and down-vote handlers. */
  function ExtractReason(message: string): (e: Extraction)
    ensures e == NoReason <==> !Contains(message, ReasonPhrase)
    ensures e == TypeError <==>
      Contains(message, ReasonPhrase) && forall k: nat, r: string :: !MatchesAt(message, k, r)
    ensures e.Reason? ==> exists k: nat ::
      MatchesAt(message, k, e.reason) && forall j: nat, r: string :: j < k ==> !MatchesAt(message, j, r)
  {
    MatchesEverywhere(message);
    if !Contains(message, ReasonPhrase) then NoReason
    else
      match FirstMatch(message, 0)
      case None => TypeError
      case Some((k, reason)) =>
        assert MatchesAt(message, k, reason);
        Reason(reason)
  }

  /** The text of the alert, or None when the handler throws instead. */
  function AlertText(message: string): (text: Option<string>)
    ensures text.None? <==> ExtractReason(message) == TypeError
    ensures !Contains(message, ReasonPhrase) ==> text == Some(GenericAlert)
    ensures ExtractReason(message).Reason? ==>
      text == Some("Transaction rejected with reason '" + ExtractReason(message).reason + "'")
  {
    match ExtractReason(message)
    case Reason(reason) => Some("Transaction rejected with reason '" + reason + "'")
    case NoReason => Some(GenericAlert)
    case TypeError => None
  }

  /** The only quote in the opener is its last character. */
  lemma OpenerQuoteIsLast(t: nat)
    requires t < |ReasonOpener| - 1
    ensures ReasonOpener[t] != '\''
  {
  }

  /**
   * The opener cannot start inside `pre` and end inside a copy of itself that
   * follows `pre`: its quote would fall on a character of the copy that is not a quote.
   */
  lemma NoOpenerBefore(pre: string, rest: string, k: nat)
    requires !Contains(pre, ReasonOpener) && k < |pre|
    ensures !OccursAt(pre + ReasonOpener + rest, ReasonOpener, k)
  {
    var msg := pre + ReasonOpener + rest;
    var n := |ReasonOpener|;
    if k + n <= |pre| {
      assert !OccursAt(pre, ReasonOpener, k);
      assert msg[k..k + n] == pre[k..k + n];
    } else {
      QuoteFallsInOpener(pre, rest, k + n - 1);
      assert ReasonOpener[n - 1] == '\'';
      assert k + n <= |msg| ==> msg[k..k + n][n - 1] == msg[k + n - 1];
    }
  }

  /** A position of `msg` inside the copy of the opener, other than its last one, holds no quote. */
  lemma QuoteFallsInOpener(pre: string, rest: string, q: nat)
    requires |pre| <= q < |pre| + |ReasonOpener| - 1
    ensures q < |pre + ReasonOpener + rest| && (pre + ReasonOpener + rest)[q] != '\''
  {
    OpenerQuoteIsLast(q - |pre|);
    assert (pre + ReasonOpener + rest)[q] == ReasonOpener[q - |pre|];
  }

  /**
   * Round trip: a message that carries a capturable reason after the opener,
   * with no earlier occurrence of the opener, yields exactly that reason.
   */
  lemma {:induction false} ExtractsReason(pre: string, reason: string, post: string)
    requires Capturable(reason) && !Contains(pre, ReasonOpener)
    ensures ExtractReason(pre + ReasonOpener + reason + "'" + post) == Reason(reason)
  {
    var msg := pre + ReasonOpener + reason + "'" + post;
    var k := |pre|;
    var w := ReasonOpener + reason + "'";
    assert msg == pre + w + post;
    assert msg[k..k + |w|] == w;
    assert MatchesAt(msg, k, reason);
    ReasonAtMeaning(msg, k, reason);
    assert msg[k..k + |ReasonPhrase|] == ReasonPhrase;
    assert OccursAt(msg, ReasonPhrase, k);
    forall j: nat | j < k
      ensures ReasonAt(msg, j).None?
    {
      assert msg == pre + ReasonOpener + (reason + "'" + post);
      NoOpenerBefore(pre, reason + "'" + post, j);
    }
    FirstMatchFinds(msg, 0, k, reason);
  }

  /** `FirstMatch` from `i` finds a match at `k` when no position from `i` up to `k` matches. */
  lemma {:induction false} FirstMatchFinds(msg: string, i: nat, k: nat, reason: string)
    requires i <= k && ReasonAt(msg, k) == Some(reason)
    requires forall j: nat :: i <= j < k ==> ReasonAt(msg, j).None?
    ensures FirstMatch(msg, i) == Some((k, reason))
    decreases k - i
  {
    if i < k {
      assert ReasonAt(msg, i).None?;
      FirstMatchFinds(msg, i + 1, k, reason);
    }
  }

  /** The phrase without the opening quote after it makes the handler throw. */
  lemma PhraseWithoutOpenerThrows(message: string)
    requires Contains(message, ReasonPhrase) && !Contains(message, ReasonOpener)
    ensures ExtractReason(message) == TypeError
    ensures AlertText(message).None?
  {
  }

  /** A text without a quote cannot hold the opener, whose last character is a quote. */
  lemma NoQuoteNoOpener(s: string)
    requires '\'' !in s
    ensures !Contains(s, ReasonOpener)
  {
    var n := |ReasonOpener|;
    forall k: nat | k <= |s| && k + n <= |s|
      ensures !OccursAt(s, ReasonOpener, k)
    {
      assert s[k..k + n][n - 1] == s[k + n - 1];
      assert s[k + n - 1] in s;
    }
  }

  /**
   * A revert message as the Hardhat network words it (a text without quotes,
   * such as "Error: VM Exception while processing transaction: ", then the
   * opener, the reason and the closing quote) alerts with exactly that reason.
   */
  lemma HardhatMessage(pre: string, reason: string)
    requires '\'' !in pre && Capturable(reason)
    ensures AlertText(pre + ReasonOpener + reason + "'")
      == Some("Transaction rejected with reason '" + reason + "'")
  {
    NoQuoteNoOpener(pre);
    ExtractsReason(pre, reason, "");
    assert pre + ReasonOpener + reason + "'" + "" == pre + ReasonOpener + reason + "'";
  }

  /**
   * The opener with no closing quote after it, and no quote before it, makes
   * the handler throw: the lazy capture never finds its closing quote.
   */
  lemma UnclosedReasonThrows(pre: string, rest: string)
    requires '\'' !in pre && '\'' !in rest
    ensures ExtractReason(pre + ReasonOpener + rest) == TypeError
    ensures AlertText(pre + ReasonOpener + rest).None?
  {
    var msg := pre + ReasonOpener + rest;
    var n := |ReasonOpener|;
    assert msg[|pre|..|pre| + |ReasonPhrase|] == ReasonPhrase;
    assert OccursAt(msg, ReasonPhrase, |pre|);
    forall t | 0 <= t < |msg| && t != |pre| + n - 1
      ensures msg[t] != '\''
    {
      if t < |pre| {
        assert msg[t] == pre[t];
      } else if t >= |pre| + n {
        assert msg[t] == rest[t - |pre| - n];
      } else {
        OpenerQuoteIsLast(t - |pre|);
        assert msg[t] == ReasonOpener[t - |pre|];
      }
    }
    forall k: nat | true
      ensures ReasonAt(msg, k).None?
    {
      if OccursAt(msg, ReasonOpener, k) {
        assert msg[k + n - 1] == msg[k..k + n][n - 1];
        assert k == |pre|;
      }
    }
    MatchesEverywhere(msg);
  }
}
