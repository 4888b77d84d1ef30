/** The congress controller: its actions change the stores in place, step by
    step as the controller does, and each is proved to end in the state (and
    to return the way) the matching function of LawRules describes. */
module CongressController {
  import opened LawTypes
  import opened LawRules
  import LawProperties

  class Congress {
    var relations: set<Relation>
    var members: set<Member>
    var funds: Ledger
    var money: Ledger
    var taxes: map<TaxKey, int>
    var proposals: map<int, Proposal>
    var nextLawId: int
    var lawVotes: map<VoteKey, bool>
    var candidacies: map<int, Candidacy>
    var candidateVotes: set<CandidateVoteKey>
    var now: int

    /** The stores as one value. */
    function Snapshot(): Stores
      reads this
    {
      Stores(relations, members, funds, money, taxes, proposals, nextLawId,
             lawVotes, candidacies, candidateVotes, now)
    }

    ghost predicate Valid()
      reads this
    {
      Snapshot().Valid()
    }

    /** A controller over the stores as they stand. */
    constructor (init: Stores)
      requires init.Valid()
      ensures Valid() && Snapshot() == init
    {
      relations, members := init.relations, init.members;
      funds, money, taxes := init.funds, init.money, init.taxes;
      proposals, nextLawId, lawVotes := init.proposals, init.nextLawId, init.lawVotes;
      candidacies, candidateVotes := init.candidacies, init.candidateVotes;
      now := init.now;
    }

    /** The wall clock moves; nothing else changes. */
    method AdvanceClock(t: int)
      requires Valid()
      modifies this
      ensures Valid()
      ensures Snapshot() == old(Snapshot()).(now := t)
    {
      now := t;
    }

    /** proposeLaw, for the acting user `uid` whose own country is `own`. */
    method ProposeLaw(uid: int, own: int, req: LawRequest) returns (r: Outcome)
      requires Valid()
      modifies this
      ensures Valid()
      ensures var st := LawRules.ProposeLaw(old(Snapshot()), uid, own, req);
              Snapshot() == st.stores && r == st.outcome
    {
      var currency := ToLower(req.currency);
      var t := req.lawType;
      if t !in VALID_LAW_TYPES || PhpEmpty(req.reason) {
        return Fail(InvalidData);
      }
      if t == NATURAL_ENEMY || t == MUTUAL_PROTECTION_PACT {
        if req.country < 1 {
          return Fail(InvalidData);
        }
        if t == NATURAL_ENEMY {
          if Relation(own, req.country, Ally) in relations {
            return Fail(InvalidData);
          }
        } else {
          if Relation(own, req.country, Enemy) in relations {
            return Fail(InvalidData);
          }
        }
      } else if t == WORK_TAX || t == MANAGER_TAX {
        if req.amount < 0 {
          return Fail(InvalidData);
        }
      } else if t == IMPEACHMENT {
        // the proposer is checked, not req.member
        if uid < 1 || Member(uid, own) !in members {
          return Fail(InvalidData);
        }
      } else if t == TRANSFER_FUNDS {
        if uid < 1 || PhpEmpty(currency) || req.amount < 0 {
          return Fail(InvalidData);
        }
        // the requested country's treasury, not the own country's
        if Holding(funds, req.country, currency) < req.amount {
          return Fail(InvalidData);
        }
      }
      if Throttled(proposals, uid, now) {
        return Fail(InvalidData);
      }
      var expected := CountMembers(members, own);
      proposals := proposals[nextLawId := Proposal(uid, own, t, req.reason, req.country, req.member,
                                                   req.amount, currency, expected, 0, 0, false, now)];
      nextLawId := nextLawId + 1;
      r := Ok;
      LawProperties.ProposeLawKeepsValid(old(Snapshot()), uid, own, req);
    }

    /** applyLaw: the effect of the proposal `id`, chosen by its type. */
    method ApplyLaw(id: int) returns (r: Outcome)
      requires Valid()
      modifies this
      ensures Valid()
      ensures var st := LawRules.ApplyLaw(old(Snapshot()), id);
              Snapshot() == st.stores && r == st.outcome
    {
      if id !in proposals {
        return Fail(InvalidData);
      }
      var p := proposals[id];
      var t := p.lawType;
      if t == WORK_TAX || t == MANAGER_TAX {
        // the source sets the loaded row's amount and never saves it
        taxes := taxes[TaxKey(p.country, t) := p.amount];
      } else if t == CEASE_FIRE {
        relations := relations - {Relation(p.country, p.targetCountry, Enemy)};
      } else if t == NATURAL_ENEMY {
        relations := relations + {Relation(p.country, p.targetCountry, Enemy)};
      } else if t == MUTUAL_PROTECTION_PACT {
        relations := relations + {Relation(p.country, p.targetCountry, Ally)};
      } else if t == IMPEACHMENT {
        // every row of the member, in whatever country
        members := WithoutUser(members, p.member);
      } else if t == TRANSFER_FUNDS {
        if Holding(funds, p.country, p.currency) < p.amount {
          proposals := proposals[id := p.(yes := 0, no := p.expectedVotes, reason := FRAUD_REASON)];
          return Fail(InvalidData);
        }
        funds := Credit(funds, p.country, p.currency, -p.amount);
        if p.member !in money {
          // the debit is saved; the credit to the missing row never is
          return Fail(MissingRow);
        }
        money := Credit(money, p.member, p.currency, p.amount);
      }
      r := Ok;
    }

    /** voteLaw: record the vote of `voter`, bump the tally, raise `finished`
        when the tally reaches the quorum, then apply the law. */
    method VoteLaw(own: int, voter: int, law: int, inFavor: bool) returns (r: Outcome)
      requires Valid()
      modifies this
      ensures Valid()
      ensures var st := LawRules.VoteLaw(old(Snapshot()), own, voter, law, inFavor);
              Snapshot() == st.stores && r == st.outcome
    {
      if law < 1 {
        return Fail(InvalidData);
      }
      if law !in proposals || proposals[law].country != own {
        return Fail(InvalidData);
      }
      var key := VoteKey(law, voter);
      if key in lawVotes {
        return Fail(InvalidData);
      }
      var p := proposals[law];
      if inFavor {
        p := p.(yes := p.yes + 1);
      } else {
        p := p.(no := p.no + 1);
      }
      lawVotes := lawVotes[key := inFavor];
      if p.yes + p.no == p.expectedVotes {
        p := p.(finished := true);
      }
      proposals := proposals[law := p];
      assert Snapshot() == CastVote(old(Snapshot()), own, voter, law, inFavor).stores;
      r := ApplyLaw(law);
    }

    /** voteCandidate: one vote per (candidate uid, voter). */
    method VoteCandidate(voter: int, id: int, inFavor: bool) returns (r: Outcome)
      requires Valid()
      modifies this
      ensures Valid()
      ensures var st := LawRules.VoteCandidate(old(Snapshot()), voter, id, inFavor);
              Snapshot() == st.stores && r == st.outcome
    {
      if id < 1 || id !in candidacies {
        return Fail(InvalidData);
      }
      var candidacy := candidacies[id];
      var key := CandidateVoteKey(candidacy.uid, voter);
      if key in candidateVotes {
        return Fail(InvalidData);
      }
      if inFavor {
        candidacy := candidacy.(yes := candidacy.yes + 1);
      } else {
        candidacy := candidacy.(no := candidacy.no + 1);
      }
      candidateVotes := candidateVotes + {key};
      candidacies := candidacies[id := candidacy];
      r := Ok;
    }

    /** resign: delete the user's congress-member rows. */
    method Resign(uid: int) returns (r: Outcome)
      requires Valid()
      modifies this
      ensures Valid()
      ensures var st := LawRules.Resign(old(Snapshot()), uid);
              Snapshot() == st.stores && r == st.outcome
    {
      members := WithoutUser(members, uid);
      r := Ok;
    }
  }
}
