/** Properties of the congress actions that relate several calls or hold of the
    whole stores: money is neither created nor destroyed, the tally agrees with
    the vote rows, the stores' own invariant is kept, a voter votes once, the
    spam window, and the behaviours the controller has as written. */
module LawProperties {
  import opened LawTypes
  import opened LawRules

  // ---------------------------------------------------------------------------
  // The store invariant is kept by every action

  lemma ProposeLawKeepsValid(s: Stores, uid: int, own: int, req: LawRequest)
    requires s.Valid()
    ensures ProposeLaw(s, uid, own, req).stores.Valid()
  {
  }

  lemma VoteLawKeepsValid(s: Stores, own: int, voter: int, law: int, inFavor: bool)
    requires s.Valid()
    ensures VoteLaw(s, own, voter, law, inFavor).stores.Valid()
  {
    var cast := CastVote(s, own, voter, law, inFavor);
    assert cast.stores.Valid();
  }

  lemma OtherActionsKeepValid(s: Stores, uid: int, id: int, inFavor: bool)
    requires s.Valid()
    ensures VoteCandidate(s, uid, id, inFavor).stores.Valid()
    ensures Resign(s, uid).stores.Valid()
  {
  }

  // ---------------------------------------------------------------------------
  // Money supply: the total held in a currency by all treasuries and all users

  /** A non-empty set of owners has a member to take out first. */
  lemma HasOwner(owners: set<int>)
    requires owners != {}
    ensures exists k :: k in owners
  {
    if forall k :: k !in owners {
      assert false;
    }
  }

  /** The sum of one currency over a set of owners of a ledger. */
  ghost function SumOver(m: Ledger, owners: set<int>, cur: string): int
    decreases owners
  {
    if owners == {} then 0
    else
      HasOwner(owners);
      var k :| k in owners;
      Holding(m, k, cur) + SumOver(m, owners - {k}, cur)
  }

  /** Any owner can be taken out of the sum first. */
  lemma {:induction false} SumOverPick(m: Ledger, owners: set<int>, k: int, cur: string)
    requires k in owners
    ensures SumOver(m, owners, cur) == Holding(m, k, cur) + SumOver(m, owners - {k}, cur)
    decreases owners
  {
    HasOwner(owners);
    var j :| j in owners && SumOver(m, owners, cur) == Holding(m, j, cur) + SumOver(m, owners - {j}, cur);
    if j != k {
      SumOverPick(m, owners - {j}, k, cur);
      SumOverPick(m, owners - {k}, j, cur);
      assert owners - {j} - {k} == owners - {k} - {j};
    }
  }

  /** Two ledgers that agree on every owner of the set have the same sum over it. */
  lemma {:induction false} SumOverAgree(m1: Ledger, m2: Ledger, owners: set<int>, cur: string)
    requires forall k :: k in owners ==> Holding(m1, k, cur) == Holding(m2, k, cur)
    ensures SumOver(m1, owners, cur) == SumOver(m2, owners, cur)
    decreases owners
  {
    if owners != {} {
      HasOwner(owners);
      var k :| k in owners;
      SumOverPick(m1, owners, k, cur);
      SumOverPick(m2, owners, k, cur);
      SumOverAgree(m1, m2, owners - {k}, cur);
    }
  }

  /** The sum of one currency over every owner of a ledger. */
  ghost function SumIn(m: Ledger, cur: string): int
  {
    SumOver(m, m.Keys, cur)
  }

  /** Crediting one balance moves the sum of that currency by the same amount
      and leaves every other currency's sum alone. */
  lemma {:induction false} CreditShiftsSum(m: Ledger, owner: int, cur: string, delta: int, c: string)
    ensures SumIn(Credit(m, owner, cur, delta), c) == SumIn(m, c) + (if c == cur then delta else 0)
  {
    var m' := Credit(m, owner, cur, delta);
    var rest := m.Keys - {owner};
    SumOverPick(m', m'.Keys, owner, c);
    assert m'.Keys - {owner} == rest;
    SumOverAgree(m', m, rest, c);
    if owner in m {
      SumOverPick(m, m.Keys, owner, c);
    } else {
      assert m.Keys == rest;
    }
  }

  /** Everything held in a currency: all country treasuries plus all personal money. */
  ghost function Supply(s: Stores, cur: string): int
  {
    SumIn(s.funds, cur) + SumIn(s.money, cur)
  }

  /** What a transfer to a member without a Money row destroys in `cur`: the
      treasury is debited and the member is never credited. */
  ghost function TransferLoss(s: Stores, id: int, cur: string): int
  {
    if id in s.proposals && MoneyRowMissing(s, s.proposals[id]) && s.proposals[id].currency == cur
    then s.proposals[id].amount
    else 0
  }

  /** Only a transfer that passes the re-check touches the ledgers: it credits
      the member with what it debits from the treasury, or, when the member has
      no Money row, only debits the treasury. */
  lemma ApplyLawLedgers(s: Stores, id: int)
    ensures var r := ApplyLaw(s, id).stores;
            if id in s.proposals && s.proposals[id].lawType == TRANSFER_FUNDS && !FraudDetected(s, s.proposals[id]) then
              var p := s.proposals[id];
              r.funds == Credit(s.funds, p.country, p.currency, -p.amount) &&
              r.money == (if MoneyRowMissing(s, p) then s.money else Credit(s.money, p.member, p.currency, p.amount))
            else
              r.funds == s.funds && r.money == s.money
  {
  }

  /** Applying a law leaves the supply of every currency as it was: a transfer
      takes from the treasury exactly what it gives to the member, and a transfer
      caught by the re-check moves nothing. The one exception is a transfer to a
      member without a Money row, which destroys the amount it debits. */
  lemma {:induction false} ApplyLawConservesSupply(s: Stores, id: int, cur: string)
    ensures Supply(ApplyLaw(s, id).stores, cur) == Supply(s, cur) - TransferLoss(s, id, cur)
  {
    ApplyLawLedgers(s, id);
    if id in s.proposals && s.proposals[id].lawType == TRANSFER_FUNDS && !FraudDetected(s, s.proposals[id]) {
      var p := s.proposals[id];
      CreditShiftsSum(s.funds, p.country, p.currency, -p.amount, cur);
      if !MoneyRowMissing(s, p) {
        CreditShiftsSum(s.money, p.member, p.currency, p.amount, cur);
      }
    }
  }

  /** A vote, whatever its fate, neither creates nor destroys money, except the
      loss of a transfer to a member without a Money row. */
  lemma {:induction false} VoteLawConservesSupply(s: Stores, own: int, voter: int, law: int, inFavor: bool, cur: string)
    ensures Supply(VoteLaw(s, own, voter, law, inFavor).stores, cur) ==
            Supply(s, cur) - (if VoteRejected(s, own, voter, law) then 0 else TransferLoss(s, law, cur))
  {
    var cast := CastVote(s, own, voter, law, inFavor);
    assert cast.stores.funds == s.funds && cast.stores.money == s.money;
    if cast.outcome.Ok? {
      assert VoteLaw(s, own, voter, law, inFavor) == ApplyLaw(cast.stores, law);
      assert TransferLoss(cast.stores, law, cur) == TransferLoss(s, law, cur);
      ApplyLawConservesSupply(cast.stores, law, cur);
    }
  }

  /** Submissions, candidate votes and resignations never touch the ledgers. */
  lemma OtherActionsConserveSupply(s: Stores, uid: int, own: int, req: LawRequest, id: int, inFavor: bool, cur: string)
    ensures Supply(ProposeLaw(s, uid, own, req).stores, cur) == Supply(s, cur)
    ensures Supply(VoteCandidate(s, uid, id, inFavor).stores, cur) == Supply(s, cur)
    ensures Supply(Resign(s, uid).stores, cur) == Supply(s, cur)
  {
    assert ProposeLaw(s, uid, own, req).stores.funds == s.funds;
    assert ProposeLaw(s, uid, own, req).stores.money == s.money;
  }

  // ---------------------------------------------------------------------------
  // No balance goes below zero

  /** Every treasury balance is non-negative. */
  ghost predicate FundsNonNeg(s: Stores)
  {
    forall o, c :: Holding(s.funds, o, c) >= 0
  }

  /** Every personal balance is non-negative. */
  ghost predicate MoneyNonNeg(s: Stores)
  {
    forall o, c :: Holding(s.money, o, c) >= 0
  }

  /** Every transfer proposal moves a non-negative amount, as submission demands. */
  ghost predicate TransfersNonNeg(s: Stores)
  {
    forall id :: id in s.proposals && s.proposals[id].lawType == TRANSFER_FUNDS ==> s.proposals[id].amount >= 0
  }

  ghost predicate Solvent(s: Stores)
  {
    FundsNonNeg(s) && MoneyNonNeg(s) && TransfersNonNeg(s)
  }

  /** The transfer re-check is what keeps treasuries from going below zero:
      applying any law keeps every treasury balance non-negative. */
  lemma ApplyLawKeepsFundsNonNeg(s: Stores, id: int)
    requires FundsNonNeg(s)
    ensures FundsNonNeg(ApplyLaw(s, id).stores)
  {
    var r := ApplyLaw(s, id).stores;
    ApplyLawLedgers(s, id);
    if id in s.proposals && s.proposals[id].lawType == TRANSFER_FUNDS && !FraudDetected(s, s.proposals[id]) {
      var p := s.proposals[id];
      forall o, c ensures Holding(r.funds, o, c) >= 0 {
        if o == p.country && c == p.currency {
          assert Holding(r.funds, o, c) == Holding(s.funds, o, c) - p.amount;
        } else {
          assert Holding(r.funds, o, c) == Holding(s.funds, o, c);
        }
      }
    }
  }

  /** Applying any law keeps every balance and every transfer amount non-negative. */
  lemma ApplyLawKeepsSolvent(s: Stores, id: int)
    requires Solvent(s)
    ensures Solvent(ApplyLaw(s, id).stores)
  {
    ApplyLawKeepsFundsNonNeg(s, id);
    var r := ApplyLaw(s, id).stores;
    assert forall k :: k in r.proposals ==>
             r.proposals[k].lawType == s.proposals[k].lawType && r.proposals[k].amount == s.proposals[k].amount;
  }

  /** A vote keeps every balance and every transfer amount non-negative. */
  lemma VoteLawKeepsSolvent(s: Stores, own: int, voter: int, law: int, inFavor: bool)
    requires Solvent(s)
    ensures Solvent(VoteLaw(s, own, voter, law, inFavor).stores)
  {
    var cast := CastVote(s, own, voter, law, inFavor);
    if cast.outcome.Ok? {
      assert Solvent(cast.stores);
      ApplyLawKeepsSolvent(cast.stores, law);
    }
  }

  /** Submissions, candidate votes and resignations keep every balance and
      every transfer amount non-negative; a transfer is only accepted with an
      amount of at least zero. */
  lemma OtherActionsKeepSolvent(s: Stores, uid: int, own: int, req: LawRequest, id: int, inFavor: bool)
    requires Solvent(s)
    ensures Solvent(ProposeLaw(s, uid, own, req).stores)
    ensures Solvent(VoteCandidate(s, uid, id, inFavor).stores)
    ensures Solvent(Resign(s, uid).stores)
  {
  }

  // ---------------------------------------------------------------------------
  // The tally agrees with the vote rows

  /** The vote rows of one law with one in_favor value. */
  ghost function Recorded(votes: map<VoteKey, bool>, law: int, inFavor: bool): set<VoteKey>
  {
    set k | k in votes && k.law == law && votes[k] == inFavor
  }

  /** Every proposal's yes and no counters equal its in-favour and against rows. */
  ghost predicate TallyMatchesLedger(s: Stores)
  {
    forall id :: id in s.proposals ==>
      && s.proposals[id].yes == |Recorded(s.lawVotes, id, true)|
      && s.proposals[id].no == |Recorded(s.lawVotes, id, false)|
  }

  /** A new vote row joins exactly the set it belongs to. */
  lemma RecordedAfterVote(votes: map<VoteKey, bool>, key: VoteKey, v: bool, law: int, b: bool)
    requires key !in votes
    ensures |Recorded(votes[key := v], law, b)| ==
            |Recorded(votes, law, b)| + (if key.law == law && v == b then 1 else 0)
  {
    if key.law == law && v == b {
      assert Recorded(votes[key := v], law, b) == Recorded(votes, law, b) + {key};
    } else {
      assert Recorded(votes[key := v], law, b) == Recorded(votes, law, b);
    }
  }

  /** Recording a vote and bumping the counter keep tally and rows in step. */
  lemma {:induction false} CastVoteKeepsTally(s: Stores, own: int, voter: int, law: int, inFavor: bool)
    requires TallyMatchesLedger(s)
    ensures TallyMatchesLedger(CastVote(s, own, voter, law, inFavor).stores)
  {
    var r := CastVote(s, own, voter, law, inFavor).stores;
    if !VoteRejected(s, own, voter, law) {
      var key := VoteKey(law, voter);
      forall id | id in r.proposals
        ensures r.proposals[id].yes == |Recorded(r.lawVotes, id, true)|
        ensures r.proposals[id].no == |Recorded(r.lawVotes, id, false)|
      {
        RecordedAfterVote(s.lawVotes, key, inFavor, id, true);
        RecordedAfterVote(s.lawVotes, key, inFavor, id, false);
      }
    }
  }

  /** A law id no vote row refers to has no rows in either group. */
  lemma NoRowsForUnknownLaw(votes: map<VoteKey, bool>, laws: set<int>, id: int, b: bool)
    requires forall k :: k in votes ==> k.law in laws
    requires id !in laws
    ensures Recorded(votes, id, b) == {}
  {
  }

  /** A new proposal starts with no rows and zero counters. */
  lemma {:induction false} ProposeLawKeepsTally(s: Stores, uid: int, own: int, req: LawRequest)
    requires s.Valid() && TallyMatchesLedger(s)
    ensures TallyMatchesLedger(ProposeLaw(s, uid, own, req).stores)
  {
    var r := ProposeLaw(s, uid, own, req);
    if r.outcome.Ok? {
      var id := s.nextLawId;
      var ps := r.stores.proposals;
      assert r.stores.lawVotes == s.lawVotes;
      forall x | x in ps
        ensures ps[x].yes == |Recorded(s.lawVotes, x, true)| && ps[x].no == |Recorded(s.lawVotes, x, false)|
      {
        if x == id {
          NoRowsForUnknownLaw(s.lawVotes, s.proposals.Keys, id, true);
          NoRowsForUnknownLaw(s.lawVotes, s.proposals.Keys, id, false);
        } else {
          assert x in s.proposals && ps[x] == s.proposals[x];
        }
      }
    }
  }

  /** A vote that returns normally keeps tally and rows in step; only the
      transfer re-check, which overwrites the counters, breaks the agreement. */
  lemma {:induction false} VoteLawKeepsTally(s: Stores, own: int, voter: int, law: int, inFavor: bool)
    requires TallyMatchesLedger(s)
    ensures !(!VoteRejected(s, own, voter, law) && FraudDetected(s, s.proposals[law])) ==>
              TallyMatchesLedger(VoteLaw(s, own, voter, law, inFavor).stores)
  {
    CastVoteKeepsTally(s, own, voter, law, inFavor);
  }

  /** Applying a law other than through a vote, a candidate vote and a
      resignation keep tally and rows in step, again up to the fraud overwrite. */
  lemma OtherActionsKeepTally(s: Stores, uid: int, law: int, id: int, inFavor: bool)
    requires TallyMatchesLedger(s)
    ensures !(law in s.proposals && FraudDetected(s, s.proposals[law])) ==>
              TallyMatchesLedger(ApplyLaw(s, law).stores)
    ensures TallyMatchesLedger(VoteCandidate(s, uid, id, inFavor).stores)
    ensures TallyMatchesLedger(Resign(s, uid).stores)
  {
  }

  // ---------------------------------------------------------------------------
  // One vote per voter and law; the quorum is frozen

  /** Once a vote of `voter` on `law` got past the checks, a second one is
      refused and changes nothing, whether or not the first application failed. */
  lemma SecondVoteRejected(s: Stores, own: int, voter: int, law: int, first: bool, second: bool)
    requires !VoteRejected(s, own, voter, law)
    ensures var s' := VoteLaw(s, own, voter, law, first).stores;
            VoteLaw(s', own, voter, law, second) == Step(s', Fail(InvalidData))
  {
  }

  /** The quorum of every proposal survives votes, resignations and impeachments. */
  lemma QuorumFrozen(s: Stores, own: int, voter: int, law: int, inFavor: bool)
    ensures var r := VoteLaw(s, own, voter, law, inFavor).stores;
            forall k :: k in s.proposals ==> k in r.proposals && r.proposals[k].expectedVotes == s.proposals[k].expectedVotes
    ensures Resign(s, voter).stores.proposals == s.proposals
  {
  }

  // ---------------------------------------------------------------------------
  // The spam window

  /** After a successful submission, the same proposer is refused again until
      more than two days have passed; at exactly two days the window still holds. */
  lemma {:induction false} ResubmissionWithinTwoDaysFails(s: Stores, uid: int, own: int, req: LawRequest,
                                                          own2: int, req2: LawRequest, t: int)
    requires ProposeLaw(s, uid, own, req).outcome.Ok?
    requires t <= s.now + TWO_DAYS
    ensures var s' := ProposeLaw(s, uid, own, req).stores.(now := t);
            ProposeLaw(s', uid, own2, req2) == Step(s', Fail(InvalidData))
  {
    var s' := ProposeLaw(s, uid, own, req).stores.(now := t);
    assert s'.proposals[s.nextLawId].createdAt >= t - TWO_DAYS;
  }

  /** A proposal created at T throttles its proposer at T + 2 days but no longer at T + 2 days + 1. */
  lemma ThrottleBoundary(p: Proposal, id: int)
    ensures Throttled(map[id := p], p.uid, p.createdAt + TWO_DAYS)
    ensures !Throttled(map[id := p], p.uid, p.createdAt + TWO_DAYS + 1)
  {
    assert map[id := p][id] == p;
  }

  // ---------------------------------------------------------------------------
  // Behaviours the controller has as written

  /** applyLaw runs on every vote, not only the one that finishes the tally, and
      without a majority: a single vote against an enemy law already creates the
      enemy relation while the law is still unfinished. */
  lemma EffectOnFirstVote(s: Stores, own: int, voter: int, law: int)
    requires !VoteRejected(s, own, voter, law)
    requires s.proposals[law].lawType == NATURAL_ENEMY
    requires s.proposals[law].yes + s.proposals[law].no + 1 < s.proposals[law].expectedVotes
    requires !s.proposals[law].finished
    ensures var r := VoteLaw(s, own, voter, law, false);
            && r.outcome == Ok
            && !r.stores.proposals[law].finished
            && Relation(own, s.proposals[law].targetCountry, Enemy) in r.stores.relations
  {
  }

  /** Nothing stops the tally of a finished law: a further voter pushes
      yes + no past the quorum and the law is applied once more. */
  lemma TallyPassesQuorum(s: Stores, own: int, voter: int, law: int)
    requires !VoteRejected(s, own, voter, law)
    requires s.proposals[law].lawType == WORK_TAX
    requires s.proposals[law].yes + s.proposals[law].no == s.proposals[law].expectedVotes
    ensures var r := VoteLaw(s, own, voter, law, true);
            && r.outcome == Ok
            && r.stores.proposals[law].yes + r.stores.proposals[law].no == s.proposals[law].expectedVotes + 1
            && r.stores.taxes[TaxKey(own, WORK_TAX)] == s.proposals[law].amount
  {
  }

  /** The transfer re-check: when the treasury no longer holds the amount, the
      deciding vote is recorded but the call fails, no balance moves, and the
      proposal is rewritten as rejected for fraud. */
  lemma FraudRejectsTransfer(s: Stores, own: int, voter: int, law: int, inFavor: bool)
    requires !VoteRejected(s, own, voter, law)
    requires FraudDetected(s, s.proposals[law])
    ensures var r := VoteLaw(s, own, voter, law, inFavor);
            var p, q := s.proposals[law], r.stores.proposals[law];
            && r.outcome == Fail(InvalidData)
            && r.stores.funds == s.funds && r.stores.money == s.money
            && VoteKey(law, voter) in r.stores.lawVotes
            && q.yes == 0 && q.no == p.expectedVotes && q.reason == FRAUD_REASON
  {
  }

  /** Submission checks the proposer, not the target member, for impeachments:
      the target plays no part in whether the proposal is accepted. */
  lemma ImpeachmentIgnoresTarget(s: Stores, uid: int, own: int, req: LawRequest, target: int)
    requires req.lawType == IMPEACHMENT
    ensures ProposeLaw(s, uid, own, req).outcome == ProposeLaw(s, uid, own, req.(member := target)).outcome
  {
  }

  /** Submission reads the treasury of the requested country for transfers: the
      own country's balance plays no part when the two differ. */
  lemma TransferCheckReadsRequestedCountry(s: Stores, uid: int, own: int, req: LawRequest, row: map<string, int>)
    requires req.lawType == TRANSFER_FUNDS && req.country != own
    ensures ProposeLaw(s, uid, own, req).outcome == ProposeLaw(s.(funds := s.funds[own := row]), uid, own, req).outcome
  {
  }

  /** Nothing stops a country from proposing itself as its own enemy or ally. */
  lemma SelfTargetAccepted(s: Stores, uid: int, own: int, req: LawRequest)
    requires req.lawType == NATURAL_ENEMY || req.lawType == MUTUAL_PROTECTION_PACT
    requires req.country == own && own >= 1
    requires !PhpEmpty(req.reason)
    requires Relation(own, own, if req.lawType == NATURAL_ENEMY then Ally else Enemy) !in s.relations
    requires !Throttled(s.proposals, uid, s.now)
    ensures ProposeLaw(s, uid, own, req).outcome == Ok
  {
  }

  /** Impeachment deletes the member's rows in every country, not only in the
      proposal's own. */
  lemma ImpeachmentReachesOtherCountries(s: Stores, id: int, country: int)
    requires id in s.proposals && s.proposals[id].lawType == IMPEACHMENT
    ensures Member(s.proposals[id].member, country) !in ApplyLaw(s, id).stores.members
  {
  }

  /** voteLaw never asks whether the voter holds a congress seat: a user with
      no member row in any country still has the vote recorded and counted. */
  lemma VoterNeedsNoSeat(s: Stores, own: int, voter: int, law: int, inFavor: bool)
    requires !VoteRejected(s, own, voter, law)
    requires forall m :: m in s.members ==> m.uid != voter
    ensures var r := VoteLaw(s, own, voter, law, inFavor);
            var p, q := s.proposals[law], r.stores.proposals[law];
            && r.stores.lawVotes == s.lawVotes[VoteKey(law, voter) := inFavor]
            && (!FraudDetected(s, p) ==> q.yes + q.no == p.yes + p.no + 1)
  {
    var cast := CastVote(s, own, voter, law, inFavor);
    var c := cast.stores.proposals[law];
    assert VoteLaw(s, own, voter, law, inFavor) == ApplyLaw(cast.stores, law);
    assert FraudDetected(cast.stores, c) == FraudDetected(s, s.proposals[law]);
  }

  /** proposeLaw asks for a congress seat only for impeachments: a user with no
      member row in any country may still submit, for instance, a tax law. */
  lemma ProposerNeedsNoSeat(s: Stores, uid: int, own: int, req: LawRequest)
    requires req.lawType == WORK_TAX && req.amount >= 0
    requires !PhpEmpty(req.reason)
    requires forall m :: m in s.members ==> m.uid != uid
    requires !Throttled(s.proposals, uid, s.now)
    ensures ProposeLaw(s, uid, own, req).outcome == Ok
  {
  }
}
