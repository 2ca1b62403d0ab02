/**
 * Votes on a settings change as instructions: approving, rejecting and executing
 * one proposal. None of them carries the change.
 */
module Ballots {
  import opened Wrappers
  import opened Keys
  import opened Squads
  import opened Describe
  import opened Verify
  import B = Builders

  /** A vote, with the policies an execution has to carry. */
  datatype Ballot = Ballot(vote: Vote, policies: seq<Key>)

  function ProposalOf(r: B.Request): Key {
    ProposalAddress(r.addresses.settings, r.transactionIndex)
  }

  function BuildBallot(r: B.Request, b: Ballot): Instruction {
    match b.vote.kind
    case Approve => B.BuildApprove(r, b.vote.signer)
    case Reject => B.BuildReject(r, b.vote.signer)
    case ExecuteChange => B.BuildExecute(r, b.vote.signer, b.policies)
  }

  function Cast(r: B.Request, ballots: seq<Ballot>): (ixs: seq<Instruction>)
    ensures |ixs| == |ballots|
    ensures forall i :: 0 <= i < |ballots| ==> ixs[i] == BuildBallot(r, ballots[i])
  {
    Map(b => BuildBallot(r, b), ballots)
  }

  function VotesIn(ballots: seq<Ballot>): (votes: seq<Vote>)
    ensures |votes| == |ballots|
    ensures forall i :: 0 <= i < |ballots| ==> votes[i] == ballots[i].vote
  {
    Map((b: Ballot) => b.vote, ballots)
  }

  lemma ReadBallot(r: B.Request, b: Ballot)
    ensures DecodeInstruction(BuildBallot(r, b)) == DVote(r.addresses.settings, ProposalOf(r), b.vote)
  {
    var ix := BuildBallot(r, b);
    assert DecodeInstruction(ix) == DecodeSquads(ix.accounts, ix.data);
    assert ix.accounts[0] == r.addresses.settings && ix.accounts[1] == b.vote.signer && ix.accounts[2] == ProposalOf(r);
  }

  predicate IsBallot(d: Decoded, r: B.Request) {
    d.DVote? && d.consensus == r.addresses.settings && d.proposal == ProposalOf(r)
  }

  lemma {:induction false} OnlyVotes(d: seq<Decoded>)
    requires forall v :: v in d ==> v.DVote?
    ensures Proposes(d) == [] && Proposals(d) == [] && Spends(d) == [] && Transfers(d) == [] && Opens(d) == []
    ensures DUnknown !in d && Votings(d) == d
  {
    if d != [] {
      assert d[0] in d;
      forall v | v in d[1..] ensures v in d {}
      OnlyVotes(d[1..]);
      assert d == [d[0]] + d[1..];
    }
  }

  lemma BallotsDecode(r: B.Request, ballots: seq<Ballot>, d: seq<Decoded>)
    requires d == DecodeEach(Cast(r, ballots))
    ensures forall v :: v in d ==> IsBallot(v, r)
    ensures Votings(d) == d && VotesOf(Votings(d)) == VotesIn(ballots)
  {
    forall i | 0 <= i < |ballots| ensures d[i] == DVote(r.addresses.settings, ProposalOf(r), ballots[i].vote) {
      ReadBallot(r, ballots[i]);
    }
    OnlyVotes(d);
  }

  /** Any list of votes on one proposal reads back as those votes, in order, on that proposal. */
  lemma BallotsReadBack(r: B.Request, ballots: seq<Ballot>)
    requires ballots != [] && r.addresses.vault == Vault(r.addresses.settings)
    ensures DescribeInstructions(Cast(r, ballots), PlainContext(r.addresses.vault))
         == VotesOn(r.addresses.settings, r.addresses.vault, ProposalOf(r), VotesIn(ballots))
  {
    var d := DecodeEach(Cast(r, ballots));
    BallotsDecode(r, ballots, d);
    OnlyVotes(d);
    assert d[0] in d;
  }

  /** The descriptions that pass for a vault whatever was expected of it are its votes, and no others. */
  lemma PassesWhateverExpectedIff(d: Description, vault: Key)
    ensures (forall e: ExpectedSettings | e.vault == vault :: SettingsMatch(d, e)) <==> d.VotesOn? && d.vault == vault
  {
    if d.SettingsChange? {
      var more := Nothing(vault).(policyCreates := Count(d.actions, Creating) + 1);
      assert !SettingsMatch(d, more);
    } else {
      assert SettingsMatch(d, Nothing(vault)) ==> d.VotesOn? && d.vault == vault;
    }
  }
}
