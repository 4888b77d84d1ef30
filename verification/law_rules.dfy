/** The congress controller's actions as functions from the stores before to the
    stores after plus the way the action returned. The class in congress.dfy
    performs the same actions in place and is proved equal to these. */
module LawRules {
  import opened LawTypes

  /** The inputs of proposeLaw, as read from the request. */
  datatype LawRequest = LawRequest(
    lawType: int,
    reason: string,
    country: int,   // target country
    amount: int,
    currency: string,
    member: int)    // target member

  // ---------------------------------------------------------------------------
  // Submission (proposeLaw)

  /** The generic check: a known type code and a reason PHP does not call empty. */
  predicate KnownTypeAndReason(req: LawRequest)
  {
    req.lawType in VALID_LAW_TYPES && !PhpEmpty(req.reason)
  }

  /** The type-dependent checks of the switch in proposeLaw. As written, the
      impeachment and transfer branches test the proposer `uid`, not the target
      member; the transfer branch reads the funds of the requested target country,
      not of the proposer's own country; and neither relation branch compares the
      target with the own country. */
  predicate TypeRuleHolds(s: Stores, uid: int, own: int, req: LawRequest)
  {
    var t := req.lawType;
    if t == NATURAL_ENEMY || t == MUTUAL_PROTECTION_PACT then
      && req.country >= 1
      && (if t == NATURAL_ENEMY then Relation(own, req.country, Ally) !in s.relations
          else Relation(own, req.country, Enemy) !in s.relations)
    else if t == WORK_TAX || t == MANAGER_TAX then
      req.amount >= 0
    else if t == IMPEACHMENT then
      uid >= 1 && Member(uid, own) in s.members
    else if t == TRANSFER_FUNDS then
      var currency := ToLower(req.currency);
      && uid >= 1
      && !PhpEmpty(currency)
      && req.amount >= 0
      && Holding(s.funds, req.country, currency) >= req.amount
    else
      true
  }

  /** The anti-spam query: some proposal of `uid` was created at or after now - 2 days. */
  predicate Throttled(proposals: map<int, Proposal>, uid: int, now: int)
  {
    exists id :: id in proposals && proposals[id].uid == uid && proposals[id].createdAt >= now - TWO_DAYS
  }

  /** All of proposeLaw's read-only checks together. */
  predicate Acceptable(s: Stores, uid: int, own: int, req: LawRequest)
  {
    KnownTypeAndReason(req) && TypeRuleHolds(s, uid, own, req) && !Throttled(s.proposals, uid, s.now)
  }

  /** The record proposeLaw creates (yes/no start at the table's default 0,
      created_at is the clock). */
  function NewProposal(s: Stores, uid: int, own: int, req: LawRequest): Proposal
  {
    Proposal(uid, own, req.lawType, req.reason, req.country, req.member, req.amount,
             ToLower(req.currency), CountMembers(s.members, own), 0, 0, false, s.now)
  }

  /** proposeLaw: either fails with INVALID_DATA and changes nothing, or adds
      exactly one open proposal whose quorum is the current congress size. */
  function ProposeLaw(s: Stores, uid: int, own: int, req: LawRequest): (r: Step)
    ensures r.outcome.Ok? <==> Acceptable(s, uid, own, req)
    ensures r.outcome.Fail? ==> r == Step(s, Fail(InvalidData))
    ensures !KnownTypeAndReason(req) ==> r == Step(s, Fail(InvalidData))
    ensures (req.lawType == WORK_TAX || req.lawType == MANAGER_TAX) && req.amount < 0 ==>
              r == Step(s, Fail(InvalidData))
    ensures Throttled(s.proposals, uid, s.now) ==> r == Step(s, Fail(InvalidData))
    ensures r.outcome.Ok? ==> r.stores.proposals.Keys == s.proposals.Keys + {s.nextLawId}
    ensures r.outcome.Ok? ==>
              var id, p := s.nextLawId, r.stores.proposals[s.nextLawId];
              && r.stores == s.(proposals := r.stores.proposals, nextLawId := id + 1)
              && (s.Valid() ==> id !in s.proposals && |r.stores.proposals| == |s.proposals| + 1)
              && (forall k :: k in s.proposals && k != id ==> r.stores.proposals[k] == s.proposals[k])
              && p.expectedVotes == CountMembers(s.members, own)
              && p.yes == 0 && p.no == 0 && !p.finished
              && p.uid == uid && p.country == own && p.createdAt == s.now
              && p.lawType == req.lawType && p.reason == req.reason
              && p.targetCountry == req.country && p.member == req.member
              && p.amount == req.amount && p.currency == ToLower(req.currency)
  {
    if !Acceptable(s, uid, own, req) then
      Step(s, Fail(InvalidData))
    else
      var p := NewProposal(s, uid, own, req);
      Step(s.(proposals := s.proposals[s.nextLawId := p], nextLawId := s.nextLawId + 1), Ok)
  }

  // ---------------------------------------------------------------------------
  // Voting (voteLaw, first half: ledger and tally)

  /** Why voteLaw refuses a vote before touching anything. */
  predicate VoteRejected(s: Stores, own: int, voter: int, law: int)
  {
    || law < 1
    || law !in s.proposals
    || s.proposals[law].country != own
    || VoteKey(law, voter) in s.lawVotes
  }

  /** voteLaw up to the save: record the vote, bump one counter, and raise
      `finished` when the tally equals the quorum. `finished` is never checked
      and never lowered, so a finished law keeps taking votes. */
  function CastVote(s: Stores, own: int, voter: int, law: int, inFavor: bool): (r: Step)
    ensures r.outcome.Fail? <==> VoteRejected(s, own, voter, law)
    ensures r.outcome.Fail? ==> r == Step(s, Fail(InvalidData))
    ensures r.outcome.Ok? ==> r.stores.proposals.Keys == s.proposals.Keys
    ensures r.outcome.Ok? ==>
              var p, q := s.proposals[law], r.stores.proposals[law];
              && r.stores == s.(proposals := r.stores.proposals, lawVotes := r.stores.lawVotes)
              && VoteKey(law, voter) !in s.lawVotes
              && r.stores.lawVotes == s.lawVotes[VoteKey(law, voter) := inFavor]
              && |r.stores.lawVotes| == |s.lawVotes| + 1
              && (forall k :: k in s.proposals && k != law ==> r.stores.proposals[k] == s.proposals[k])
              && q.yes == p.yes + (if inFavor then 1 else 0)
              && q.no == p.no + (if inFavor then 0 else 1)
              && (q.finished <==> p.finished || q.yes + q.no == p.expectedVotes)
              && q == p.(yes := q.yes, no := q.no, finished := q.finished)
  {
    if VoteRejected(s, own, voter, law) then
      Step(s, Fail(InvalidData))
    else
      var p := s.proposals[law];
      var counted := if inFavor then p.(yes := p.yes + 1) else p.(no := p.no + 1);
      var q := if counted.yes + counted.no == counted.expectedVotes then counted.(finished := true) else counted;
      Step(s.(proposals := s.proposals[law := q], lawVotes := s.lawVotes[VoteKey(law, voter) := inFavor]), Ok)
  }

  // ---------------------------------------------------------------------------
  // Effects (applyLaw)

  /** The transfer re-check at application time: the proposal's own country no
      longer holds the amount in the proposal's currency. */
  predicate FraudDetected(s: Stores, p: Proposal)
  {
    p.lawType == TRANSFER_FUNDS && Holding(s.funds, p.country, p.currency) < p.amount
  }

  /** A transfer that passes the re-check for a member without a Money row: the
      treasury is debited and saved, and then the call dies on the member's
      missing row before any credit is saved. */
  predicate MoneyRowMissing(s: Stores, p: Proposal)
  {
    p.lawType == TRANSFER_FUNDS && !FraudDetected(s, p) && p.member !in s.money
  }

  /** applyLaw: dispatch on the law type. Taxes, relations, members and balances
      change as the type says; a transfer whose funds vanished rewrites the tally
      to a rejection and fails; a transfer to a member without a Money row
      debits the treasury and then fails; an unknown type does nothing. The tax write is a
      write to the tax store here although the source assigns the field of the
      loaded row without saving it. */
  function ApplyLaw(s: Stores, id: int): (r: Step)
    ensures id !in s.proposals ==> r == Step(s, Fail(InvalidData))
    ensures r.stores.lawVotes == s.lawVotes && r.stores.nextLawId == s.nextLawId && r.stores.now == s.now
    ensures r.stores.candidacies == s.candidacies && r.stores.candidateVotes == s.candidateVotes
    ensures r.stores.proposals.Keys == s.proposals.Keys
    ensures !(id in s.proposals && FraudDetected(s, s.proposals[id])) ==> r.stores.proposals == s.proposals
    ensures forall k :: k in s.proposals ==> r.stores.proposals[k].expectedVotes == s.proposals[k].expectedVotes
    ensures r.outcome.Fail? <==>
              id !in s.proposals || FraudDetected(s, s.proposals[id]) || MoneyRowMissing(s, s.proposals[id])
    ensures id in s.proposals ==>
              var p := s.proposals[id];
              var t := p.lawType;
              && ((t == WORK_TAX || t == MANAGER_TAX) ==>
                    r.stores == s.(taxes := s.taxes[TaxKey(p.country, t) := p.amount]))
              && (t == CEASE_FIRE ==>
                    && r.stores == s.(relations := r.stores.relations)
                    && forall x :: x in r.stores.relations <==>
                                   x in s.relations && x != Relation(p.country, p.targetCountry, Enemy))
              && (t == NATURAL_ENEMY ==>
                    r.stores == s.(relations := s.relations + {Relation(p.country, p.targetCountry, Enemy)}))
              && (t == MUTUAL_PROTECTION_PACT ==>
                    r.stores == s.(relations := s.relations + {Relation(p.country, p.targetCountry, Ally)}))
              && (t == IMPEACHMENT ==>
                    && r.stores == s.(members := r.stores.members)
                    && forall m :: m in r.stores.members <==> m in s.members && m.uid != p.member)
              && (FraudDetected(s, p) ==>
                    && r.outcome == Fail(InvalidData)
                    && r.stores == s.(proposals := r.stores.proposals)
                    && r.stores.proposals == s.proposals[id := p.(yes := 0, no := p.expectedVotes, reason := FRAUD_REASON)])
              && (MoneyRowMissing(s, p) ==>
                    && r.outcome == Fail(MissingRow)
                    && r.stores == s.(funds := r.stores.funds)
                    && Holding(r.stores.funds, p.country, p.currency) == Holding(s.funds, p.country, p.currency) - p.amount
                    && (forall o, c :: (o != p.country || c != p.currency) ==>
                          Holding(r.stores.funds, o, c) == Holding(s.funds, o, c)))
              && (t == TRANSFER_FUNDS && !FraudDetected(s, p) && !MoneyRowMissing(s, p) ==>
                    && r.stores == s.(funds := r.stores.funds, money := r.stores.money)
                    && Holding(r.stores.funds, p.country, p.currency) == Holding(s.funds, p.country, p.currency) - p.amount
                    && Holding(r.stores.money, p.member, p.currency) == Holding(s.money, p.member, p.currency) + p.amount
                    && (forall o, c :: (o != p.country || c != p.currency) ==>
                          Holding(r.stores.funds, o, c) == Holding(s.funds, o, c))
                    && (forall o, c :: (o != p.member || c != p.currency) ==>
                          Holding(r.stores.money, o, c) == Holding(s.money, o, c)))
              && (t !in VALID_LAW_TYPES ==> r == Step(s, Ok))
  {
    if id !in s.proposals then
      Step(s, Fail(InvalidData))
    else
      var p := s.proposals[id];
      var t := p.lawType;
      if t == WORK_TAX || t == MANAGER_TAX then
        Step(s.(taxes := s.taxes[TaxKey(p.country, t) := p.amount]), Ok)
      else if t == CEASE_FIRE then
        Step(s.(relations := s.relations - {Relation(p.country, p.targetCountry, Enemy)}), Ok)
      else if t == NATURAL_ENEMY then
        Step(s.(relations := s.relations + {Relation(p.country, p.targetCountry, Enemy)}), Ok)
      else if t == MUTUAL_PROTECTION_PACT then
        Step(s.(relations := s.relations + {Relation(p.country, p.targetCountry, Ally)}), Ok)
      else if t == IMPEACHMENT then
        Step(s.(members := WithoutUser(s.members, p.member)), Ok)
      else if t == TRANSFER_FUNDS then
        if Holding(s.funds, p.country, p.currency) < p.amount then
          var rejected := p.(yes := 0, no := p.expectedVotes, reason := FRAUD_REASON);
          Step(s.(proposals := s.proposals[id := rejected]), Fail(InvalidData))
        else if p.member !in s.money then
          Step(s.(funds := Credit(s.funds, p.country, p.currency, -p.amount)), Fail(MissingRow))
        else
          Step(s.(funds := Credit(s.funds, p.country, p.currency, -p.amount),
                  money := Credit(s.money, p.member, p.currency, p.amount)), Ok)
      else
        Step(s, Ok)
  }

  // ---------------------------------------------------------------------------
  // Voting (voteLaw, whole)

  /** voteLaw: a vote that gets past the checks is recorded and then the law is
      applied at once, whether or not the tally is complete and whatever the
      split; the call fails afterwards only when the transfer re-check fires or
      the transfer's member has no Money row, and the recorded vote stays. */
  function VoteLaw(s: Stores, own: int, voter: int, law: int, inFavor: bool): (r: Step)
    ensures VoteRejected(s, own, voter, law) ==> r == Step(s, Fail(InvalidData))
    ensures !VoteRejected(s, own, voter, law) ==>
              && r == ApplyLaw(CastVote(s, own, voter, law, inFavor).stores, law)
              && r.stores.lawVotes == s.lawVotes[VoteKey(law, voter) := inFavor]
              && (r.outcome.Fail? <==> FraudDetected(s, s.proposals[law]) || MoneyRowMissing(s, s.proposals[law]))
  {
    var cast := CastVote(s, own, voter, law, inFavor);
    if cast.outcome.Fail? then cast else ApplyLaw(cast.stores, law)
  }

  // ---------------------------------------------------------------------------
  // Candidate votes and resignation

  /** Why voteCandidate refuses a vote: a bad or unknown candidacy id, or a
      vote by this voter for the same candidate uid already on file. */
  predicate CandidateVoteRejected(s: Stores, voter: int, id: int)
  {
    || id < 1
    || id !in s.candidacies
    || CandidateVoteKey(s.candidacies[id].uid, voter) in s.candidateVotes
  }

  /** voteCandidate: one vote per (candidate uid, voter uid), bumping one counter. */
  function VoteCandidate(s: Stores, voter: int, id: int, inFavor: bool): (r: Step)
    ensures r.outcome.Fail? <==> CandidateVoteRejected(s, voter, id)
    ensures r.outcome.Fail? ==> r == Step(s, Fail(InvalidData))
    ensures r.outcome.Ok? ==> r.stores.candidacies.Keys == s.candidacies.Keys
    ensures r.outcome.Ok? ==>
              var c, d := s.candidacies[id], r.stores.candidacies[id];
              var key := CandidateVoteKey(c.uid, voter);
              && r.stores == s.(candidacies := r.stores.candidacies, candidateVotes := r.stores.candidateVotes)
              && key !in s.candidateVotes
              && r.stores.candidateVotes == s.candidateVotes + {key}
              && (forall k :: k in s.candidacies && k != id ==> r.stores.candidacies[k] == s.candidacies[k])
              && d.yes == c.yes + (if inFavor then 1 else 0)
              && d.no == c.no + (if inFavor then 0 else 1)
              && d.uid == c.uid && d.country == c.country
  {
    if CandidateVoteRejected(s, voter, id) then
      Step(s, Fail(InvalidData))
    else
      var c := s.candidacies[id];
      var d := if inFavor then c.(yes := c.yes + 1) else c.(no := c.no + 1);
      Step(s.(candidacies := s.candidacies[id := d],
              candidateVotes := s.candidateVotes + {CandidateVoteKey(c.uid, voter)}), Ok)
  }

  /** resign: every congress-member row of the user goes, in every country. */
  function Resign(s: Stores, uid: int): (r: Step)
    ensures r.outcome == Ok
    ensures r.stores == s.(members := r.stores.members)
    ensures forall m :: m in r.stores.members <==> m in s.members && m.uid != uid
  {
    Step(s.(members := WithoutUser(s.members, uid)), Ok)
  }
}
