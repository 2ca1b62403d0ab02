/** Which changes the builders refuse, and for what, on any Settings and from any proposer. */
module Refusals {
  import opened Wrappers
  import opened Keys
  import opened Squads
  import opened Builders
  import opened Chain

  /** A key on the Settings, holding the permission to propose, the first bit. */
  predicate MayPropose(signers: seq<Signer>, key: Key) {
    exists i :: 0 <= i < |signers| && signers[i].key == key && signers[i].mask & 1 == 1
  }

  lemma ProposersIff(signers: seq<Signer>, key: Key)
    requires Distinct(signers)
    ensures AssertHoldsInitiate(signers, key).Ok? <==> MayPropose(signers, key)
    ensures AssertHoldsInitiate(signers, key) == Err(NotOnSettings) <==> !Names(signers, key)
    ensures AssertHoldsInitiate(signers, key) == Err(NoInitiate) <==> Names(signers, key) && !MayPropose(signers, key)
  {
    var found := FindSigner(signers, key);
    if found.Some? {
      var i :| 0 <= i < |signers| && signers[i] == found.value;
      forall j | 0 <= j < |signers| && signers[j].key == key ensures j == i {}
    }
    forall i | 0 <= i < |signers| ensures signers[i] in signers {}
  }

  /** The limit as it stands is the one at this seed. */
  predicate IsAt(limit: SpendingLimit, addresses: Addresses, seed: nat) {
    limit.policy == PolicyAddress(addresses.settings, seed)
  }

  /**
   * A limit is rewritten exactly by a proposer who may, for a signer on the Settings, in
   * its mint, to other terms whose caps are in order.
   */
  lemma UpdatesIff(r: Request, limitSeed: nat, current: SpendingLimit, terms: Terms, limitSigner: Key,
                   signers: seq<Signer>)
    requires Distinct(signers)
    ensures var built := BuildUpdateLimit(r, limitSeed, current, terms, limitSigner, signers);
            && (built.Ok? <==>
                  && IsAt(current, r.addresses, limitSeed) && MayPropose(signers, r.proposer)
                  && terms.mint == current.mint && Names(signers, limitSigner)
                  && terms != TermsOf(current) && terms.maxPerUse <= terms.maxPerPeriod)
            && (built == Err(WrongPolicy) <==> !IsAt(current, r.addresses, limitSeed))
            && (built == Err(NotOnSettings) ==> !Names(signers, r.proposer))
            && (built == Err(NoInitiate) ==> Names(signers, r.proposer) && !MayPropose(signers, r.proposer))
            && (built == Err(DifferentMint) ==> terms.mint != current.mint)
            && (built == Err(LimitSignerNotOnSettings) ==> !Names(signers, limitSigner))
            && (built == Err(SameTerms) ==> terms == TermsOf(current))
            && (built == Err(PerUseAbovePerPeriod) ==> terms.maxPerUse > terms.maxPerPeriod)
  {
    ProposersIff(signers, r.proposer);
  }

  /** It is removed exactly by a proposer who may. */
  lemma RemovesIff(r: Request, limitSeed: nat, current: SpendingLimit, signers: seq<Signer>)
    requires Distinct(signers)
    ensures var built := BuildRemoveLimit(r, limitSeed, current, signers);
            && (built.Ok? <==> IsAt(current, r.addresses, limitSeed) && MayPropose(signers, r.proposer))
            && (built == Err(WrongPolicy) <==> !IsAt(current, r.addresses, limitSeed))
            && (built == Err(NotOnSettings) ==> !Names(signers, r.proposer))
            && (built == Err(NoInitiate) ==> Names(signers, r.proposer) && !MayPropose(signers, r.proposer))
  {
    ProposersIff(signers, r.proposer);
  }

  /** An allowlist the program takes: some programs, at most twenty, none twice. */
  predicate Listable(allowed: seq<Key>) {
    0 < |allowed| <= 20 && forall i, j :: 0 <= i < j < |allowed| ==> allowed[i] != allowed[j]
  }

  /**
   * The primary is rotated exactly where the approval signer may propose it, to another
   * key that is not the approval signer's, with both rules where they are said to be and
   * writable as they stand.
   */
  lemma RotatesPrimaryIff(r: Request, oldPrimary: Key, newPrimary: Key, approval: Key, signers: seq<Signer>,
                          limitSeed: nat, current: SpendingLimit, aboveSeed: nat, allowed: seq<Key>)
    requires Distinct(signers)
    ensures BuildRotatePrimary(r, oldPrimary, newPrimary, approval, signers, limitSeed, current, aboveSeed, allowed).Ok?
       <==> && newPrimary != oldPrimary && newPrimary != approval && limitSeed != aboveSeed
            && MayPropose(signers, approval) && IsAt(current, r.addresses, limitSeed)
            && current.maxPerUse <= current.maxPerPeriod && Listable(allowed)
  {
    ProposersIff(signers, approval);
  }

  /** The approval signer is rotated exactly to another key that is not the primary's. */
  lemma RotatesApprovalIff(r: Request, oldApproval: Key, newApproval: Key, primary: Key, aboveSeed: nat,
                           allowed: seq<Key>)
    ensures BuildRotateApproval(r, oldApproval, newApproval, primary, aboveSeed, allowed).Ok?
       <==> newApproval != oldApproval && newApproval != primary && Listable(allowed)
  {
  }

  /** Provisioning takes two seeds, two keys, caps in order and a listable allowlist. */
  lemma ProvisionsIff(r: Request, limitSeed: nat, aboveSeed: nat, terms: Terms, primary: Key, approval: Key,
                      timeLock: nat, allowed: seq<Key>)
    ensures BuildProvision(r, limitSeed, aboveSeed, terms, primary, approval, timeLock, allowed).Ok?
       <==> limitSeed != aboveSeed && primary != approval && terms.maxPerUse <= terms.maxPerPeriod && Listable(allowed)
  {
  }
}
