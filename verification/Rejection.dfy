/**
 * Refusing a staged change: prepare a message for whoever has not yet refused,
 * pin it, and forward only that message.
 */
module Rejection {
  import opened Wrappers
  import opened Keys
  import opened Squads
  import opened Builders
  import opened Ballots
  import D = Describe
  import V = Verify
  import L = Lifecycle
  import E = Effects

  const PREPARED_TTL_SECONDS: nat := 5 * 60

  /** A proposal as the chain reads it. */
  datatype ProposalState = ProposalState(approved: seq<Key>, rejected: seq<Key>, settled: bool)

  datatype AccountRow = AccountRow(settingsSeed: nat, primary: Key, approval: Key)

  datatype Chain = Chain(
    timeLock: nat,
    limitPolicyExists: bool,
    aboveLimitPolicyExists: bool,
    transactionIndex: nat,
    proposal: Option<ProposalState>)

  datatype Refusal = NoAccount | NothingAwaiting | BothRejected | NothingPrepared | NotTheMessage | ChainRefused

  /** A compiled message: its instructions under one blockhash. */
  datatype Message = Message(blockhash: nat, instructions: seq<Instruction>)

  predicate IsProvisioned(chain: Chain) {
    chain.timeLock != 0 && chain.limitPolicyExists && chain.aboveLimitPolicyExists
  }

  /** The index awaiting a decision, if one is. */
  function PendingFor(chain: Chain): Option<nat> {
    if !IsProvisioned(chain) then None
    else if chain.proposal.None? || chain.proposal.value.settled then None
    else Some(chain.transactionIndex)
  }

  function Filter(keys: seq<Key>, without: seq<Key>): (r: seq<Key>)
    ensures forall k :: k in r <==> k in keys && k !in without
  {
    if keys == [] then []
    else
      assert forall k :: k in keys <==> k == keys[0] || k in keys[1..];
      (if keys[0] in without then [] else [keys[0]]) + Filter(keys[1..], without)
  }

  /** Who is still to reject, the approval signer before the primary. */
  function Missing(account: AccountRow, rejected: seq<Key>): seq<Key> {
    Filter([account.approval, account.primary], rejected)
  }

  function RequestOf(account: AccountRow, index: nat): Request {
    Request(DeriveAddresses(account.settingsSeed), account.primary, account.primary, index)
  }

  function Rejects(r: Request, voters: seq<Key>): (ixs: seq<Instruction>)
    ensures |ixs| == |voters|
    ensures forall i :: 0 <= i < |voters| ==> ixs[i] == BuildReject(r, voters[i])
  {
    Map(k => BuildReject(r, k), voters)
  }

  /** The instructions a preparation compiles; `again` is the proposal as read the second time. */
  function ToPrepare(account: Option<AccountRow>, chain: Chain, again: Option<ProposalState>)
    : Result<seq<Instruction>, Refusal>
  {
    if account.None? then Err(NoAccount)
    else if PendingFor(chain).None? then Err(NothingAwaiting)
    else
      var rejected := if again.Some? then again.value.rejected else [];
      var voters := Missing(account.value, rejected);
      if voters == [] then Err(BothRejected)
      else Ok(Rejects(RequestOf(account.value, PendingFor(chain).value), voters))
  }

  // ---- what a prepared rejection is ----

  /** Exactly the on-device signers yet to reject, each once, approval before primary. */
  lemma MissingIsExact(account: AccountRow, rejected: seq<Key>)
    requires account.primary != account.approval
    ensures var voters := Missing(account, rejected);
            && (forall k :: k in voters <==> (k == account.approval || k == account.primary) && k !in rejected)
            && |voters| == (if account.approval in rejected then 0 else 1)
                + (if account.primary in rejected then 0 else 1)
            && (|voters| == 2 ==> voters == [account.approval, account.primary])
  {
    var both := [account.approval, account.primary];
    assert both[1..] == [account.primary];
    assert both[1..][1..] == [];
    assert Filter(both[1..], rejected) == if account.primary in rejected then [] else [account.primary];
    assert forall k :: k in both <==> k == account.approval || k == account.primary;
  }

  /** One signer's rejection on chain: refused when settled, or when that signer has already rejected. */
  function Reject(p: ProposalState, voter: Key): Option<ProposalState> {
    if p.settled || voter in p.rejected then None else Some(p.(rejected := p.rejected + [voter]))
  }

  /** A message's rejections land together or not at all. */
  function Land(p: ProposalState, voters: seq<Key>): Option<ProposalState>
    decreases |voters|
  {
    if voters == [] then Some(p)
    else if Reject(p, voters[0]).None? then None
    else Land(Reject(p, voters[0]).value, voters[1..])
  }

  lemma {:induction false} LandsAll(p: ProposalState, voters: seq<Key>)
    requires !p.settled
    requires forall k :: k in voters ==> k !in p.rejected
    requires forall i, j :: 0 <= i < j < |voters| ==> voters[i] != voters[j]
    ensures Land(p, voters) == Some(p.(rejected := p.rejected + voters))
    decreases |voters|
  {
    if voters == [] {
      assert p.rejected + voters == p.rejected;
    } else {
      assert voters[0] in voters;
      var next := Reject(p, voters[0]).value;
      forall k | k in voters[1..] ensures k !in next.rejected {
        var i :| 0 <= i < |voters[1..]| && voters[1..][i] == k;
        assert k == voters[i + 1] && k in voters;
      }
      LandsAll(next, voters[1..]);
      assert next.rejected + voters[1..] == p.rejected + voters;
    }
  }

  /** Those of the two on-device signers who have rejected. */
  function Refused(account: AccountRow, p: ProposalState): set<Key> {
    set k | k in {account.primary, account.approval} && k in p.rejected
  }

  /**
   * Whichever of the two had already rejected, the prepared message lands whole,
   * and then both have rejected, as many as the threshold asks.
   */
  lemma LandingFinishesTheRefusal(account: AccountRow, chain: Chain, p: ProposalState)
    requires account.primary != account.approval && chain.proposal == Some(p)
    requires ToPrepare(Some(account), chain, Some(p)).Ok?
    ensures var voters := Missing(account, p.rejected);
            && ToPrepare(Some(account), chain, Some(p)).value
                == Rejects(RequestOf(account, chain.transactionIndex), voters)
            && Land(p, voters).Some?
            && Refused(account, Land(p, voters).value) == {account.primary, account.approval}
            && |Refused(account, Land(p, voters).value)| >= ACCOUNT_THRESHOLD
            && ToPrepare(Some(account), chain, Land(p, voters)) == Err(BothRejected)
  {
    var voters := Missing(account, p.rejected);
    MissingIsExact(account, p.rejected);
    LandsAll(p, voters);
    var after := Land(p, voters).value;
    assert after.rejected == p.rejected + voters;
    MissingIsExact(account, after.rejected);
    assert Refused(account, after) == {account.primary, account.approval};
    assert |{account.primary, account.approval}| == 2;
  }

  /** Nothing is prepared exactly when there is no Account, no provisioned open change, or no one left to reject. */
  lemma PreparedIff(account: Option<AccountRow>, chain: Chain, p: ProposalState)
    requires chain.proposal == Some(p)
    requires account.Some? ==> account.value.primary != account.value.approval
    ensures ToPrepare(account, chain, Some(p)).Ok? <==>
      && account.Some? && IsProvisioned(chain) && !p.settled
      && !(account.value.primary in p.rejected && account.value.approval in p.rejected)
  {
    if account.Some? { MissingIsExact(account.value, p.rejected); }
  }

  /** A change stands open on an Account that has finished setting up. */
  predicate StandsOpen(chain: Chain) {
    && chain.timeLock > 0 && chain.limitPolicyExists && chain.aboveLimitPolicyExists
    && chain.proposal.Some? && !chain.proposal.value.settled
  }

  /** Each refusal is for its own reason, and there are no others. */
  lemma RefusedWhy(account: Option<AccountRow>, chain: Chain, again: Option<ProposalState>)
    ensures var r := ToPrepare(account, chain, again);
            && (r == Err(NoAccount) <==> account.None?)
            && (r == Err(NothingAwaiting) <==> account.Some? && !StandsOpen(chain))
            && (r == Err(BothRejected) <==>
                  account.Some? && StandsOpen(chain) && again.Some?
                  && account.value.primary in again.value.rejected && account.value.approval in again.value.rejected)
            && (r.Err? ==> r.error == NoAccount || r.error == NothingAwaiting || r.error == BothRejected)
  {
    if account.Some? {
      var rejected := if again.Some? then again.value.rejected else [];
      MissingRefuse(account.value, rejected);
    }
  }

  // ---- what the device will read in it ----

  function RejectBallots(voters: seq<Key>): (ballots: seq<Ballot>)
    ensures |ballots| == |voters|
    ensures forall i :: 0 <= i < |voters| ==> ballots[i] == Ballot(D.Vote(D.Reject, voters[i]), [])
  {
    Map(k => Ballot(D.Vote(D.Reject, k), []), voters)
  }

  /** A prepared rejection reads as votes on that one proposal, one reject per missing signer in order. */
  lemma RejectionReadsAsVotes(r: Request, voters: seq<Key>)
    requires voters != [] && r.addresses.vault == Vault(r.addresses.settings)
    ensures D.DescribeInstructions(Rejects(r, voters), V.PlainContext(r.addresses.vault))
         == D.VotesOn(r.addresses.settings, r.addresses.vault,
                      ProposalAddress(r.addresses.settings, r.transactionIndex), VotesIn(RejectBallots(voters)))
  {
    assert Rejects(r, voters) == Cast(r, RejectBallots(voters));
    BallotsReadBack(r, RejectBallots(voters));
  }

  /** One reject for each on-device signer yet to reject, the approval signer's first. */
  function Refusing(account: AccountRow, rejected: seq<Key>): seq<D.Vote> {
    (if account.approval in rejected then [] else [D.Vote(D.Reject, account.approval)])
    + (if account.primary in rejected then [] else [D.Vote(D.Reject, account.primary)])
  }

  lemma MissingRefuse(account: AccountRow, rejected: seq<Key>)
    ensures VotesIn(RejectBallots(Missing(account, rejected))) == Refusing(account, rejected)
  {
    var both := [account.approval, account.primary];
    assert both[1..] == [account.primary];
    assert both[1..][1..] == [];
    assert Filter(both[1..], rejected) == if account.primary in rejected then [] else [account.primary];
  }

  /**
   * Whatever is prepared rejects the change that is open on this Account's own Settings,
   * at the index the chain has reached, and casts exactly the rejections still missing.
   */
  lemma PreparedRejectsTheOpenChange(account: AccountRow, chain: Chain, again: Option<ProposalState>)
    requires ToPrepare(Some(account), chain, again).Ok?
    ensures var settings := Settings(account.settingsSeed);
            D.DescribeInstructions(ToPrepare(Some(account), chain, again).value, V.PlainContext(Vault(settings)))
            == D.VotesOn(settings, Vault(settings), ProposalAddress(settings, chain.transactionIndex),
                         Refusing(account, if again.Some? then again.value.rejected else []))
  {
    var rejected := if again.Some? then again.value.rejected else [];
    RejectionReadsAsVotes(RequestOf(account, chain.transactionIndex), Missing(account, rejected));
    MissingRefuse(account, rejected);
  }

  // ---- over the Account's own life ----

  const ABOVE_LIMIT_POLICY_SEED: nat := 2

  /** The Account as the service reads it; the row's limit seed outlives the limit it was recorded for. */
  function View(s: L.System, rowSeed: nat, index: nat, proposal: Option<ProposalState>): Chain {
    Chain(s.account.timeLock, L.PolicyAt(s, rowSeed) in s.account.policies,
          L.PolicyAt(s, ABOVE_LIMIT_POLICY_SEED) in s.account.policies, index, proposal)
  }

  /** The row names the limit while there is one, and never the above-limit rule. */
  predicate RowFollows(s: L.System, rowSeed: nat) {
    && (s.limitSeed.Some? ==> rowSeed == s.limitSeed.value)
    && s.aboveSeed == Some(2) && rowSeed != 2
  }

  /** Provisioning a new Account leaves its row so, the limit at the first seed. */
  lemma ProvisioningFollows(s: L.System, terms: Terms, timeLock: nat)
    requires L.WellFormed(s) && s.account.lastSeed == 0
    requires E.Lands(s, L.Provision(terms, timeLock))
    ensures RowFollows(L.Step(s, L.Provision(terms, timeLock)), 1)
  {
    E.StepIsIntended(s, L.Provision(terms, timeLock));
  }

  /** An open change can be refused exactly while the Account has a lock and a spending limit. */
  lemma RefusableIff(s: L.System, rowSeed: nat, index: nat, p: ProposalState)
    requires L.WellFormed(s) && RowFollows(s, rowSeed) && !p.settled
    ensures PendingFor(View(s, rowSeed, index, Some(p))).Some? <==> s.account.timeLock != 0 && s.limitSeed.Some?
  {
  }

  /** Once the limit is taken off, no rejection can be prepared, whatever is staged. */
  lemma NoRefusalWithoutLimit(s: L.System, rowSeed: nat, index: nat, proposal: Option<ProposalState>,
                              account: AccountRow,
                              again: Option<ProposalState>)
    requires L.WellFormed(s) && RowFollows(s, rowSeed) && L.CurrentLimit(s).Some?
    ensures ToPrepare(Some(account), View(L.Step(s, L.RemoveLimit), rowSeed, index, proposal), again)
        == Err(NothingAwaiting)
  {
    E.StepIsIntended(s, L.RemoveLimit);
  }
}
