/** Records, constants and store helpers of a country's congress: law proposals,
    law votes, candidacies, country relations, congress members, treasury funds,
    personal money and taxes. */
module LawTypes {

  // Law type codes (Congress::NATURAL_ENEMY … Congress::CEASE_FIRE).
  const NATURAL_ENEMY: int := 1
  const MUTUAL_PROTECTION_PACT: int := 2
  const WORK_TAX: int := 3
  const MANAGER_TAX: int := 4
  const IMPEACHMENT: int := 5
  const TRANSFER_FUNDS: int := 6
  const CEASE_FIRE: int := 7

  /** The seven codes a proposal may carry (Congress::$validLawTypes). */
  const VALID_LAW_TYPES: seq<int> :=
    [NATURAL_ENEMY, MUTUAL_PROTECTION_PACT, WORK_TAX, MANAGER_TAX, IMPEACHMENT, TRANSFER_FUNDS, CEASE_FIRE]

  /** The anti-spam window, strtotime("-2 days"), in seconds. */
  const TWO_DAYS: int := 2 * 24 * 60 * 60

  /** The reason written over a transfer whose funds vanished before it was applied. */
  const FRAUD_REASON: string := "Fraud attempt"

  /** AppException::INVALID_DATA, or the fatal error PHP raises when a row that
      does not exist is used as an object (a method called on null). */
  datatype Error = InvalidData | MissingRow

  /** Normal return, or the exception the controller throws. */
  datatype Outcome = Ok | Fail(error: Error)

  datatype RelationKind = Enemy | Ally

  /** A CountryRelation row: `country` regards `target` as an enemy or an ally. */
  datatype Relation = Relation(country: int, target: int, kind: RelationKind)

  /** A CongressMember row. */
  datatype Member = Member(uid: int, country: int)

  /** A Tax row is addressed by its country and its law type (WORK_TAX or MANAGER_TAX). */
  datatype TaxKey = TaxKey(country: int, lawType: int)

  /** A LawProposal row. The source's record has no type column (the create call
      never writes one, yet applyLaw dispatches on it); the model stores the
      submitted type in `lawType` so that the dispatch has something to read. */
  datatype Proposal = Proposal(
    uid: int,            // proposer
    country: int,        // the country whose congress votes on it
    lawType: int,
    reason: string,
    targetCountry: int,
    member: int,
    amount: int,
    currency: string,
    expectedVotes: int,  // congress size when the proposal was created
    yes: int,
    no: int,
    finished: bool,
    createdAt: int)

  /** A LawVote row is keyed by (law, uid); the map value is its in_favor flag. */
  datatype VoteKey = VoteKey(law: int, uid: int)

  /** A CongressCandidate row. */
  datatype Candidacy = Candidacy(uid: int, country: int, yes: int, no: int)

  /** A CandidateVote row: keyed by the candidate's uid, not by the candidacy id. */
  datatype CandidateVoteKey = CandidateVoteKey(candidate: int, uid: int)

  /** Balances per owner (a country or a user) and per currency. */
  type Ledger = map<int, map<string, int>>

  /** Everything the congress controller reads or writes, plus the clock. */
  datatype Stores = Stores(
    relations: set<Relation>,
    members: set<Member>,
    funds: Ledger,                        // CountryFunds, per country
    money: Ledger,                        // Money, per user
    taxes: map<TaxKey, int>,
    proposals: map<int, Proposal>,
    nextLawId: int,                       // the id the next LawProposal row receives
    lawVotes: map<VoteKey, bool>,
    candidacies: map<int, Candidacy>,
    candidateVotes: set<CandidateVoteKey>,
    now: int)
  {
    /** What the storage engine guarantees: ids are positive and issued in
        increasing order, and every vote row refers to an existing proposal. */
    predicate Valid()
    {
      && nextLawId >= 1
      && (forall id :: id in proposals ==> 1 <= id < nextLawId)
      && (forall k :: k in lawVotes ==> k.law in proposals)
    }
  }

  /** The result of one controller action: the stores afterwards and how it returned. */
  datatype Step = Step(stores: Stores, outcome: Outcome)

  /** A balance as the controller reads it; a missing row or column reads as 0,
      which is how PHP's null compares against the non-negative amounts involved. */
  function Holding(m: Ledger, owner: int, cur: string): int
  {
    if owner in m && cur in m[owner] then m[owner][cur] else 0
  }

  /** Adds `delta` to one balance, creating the row or column when missing. */
  function Credit(m: Ledger, owner: int, cur: string, delta: int): (r: Ledger)
    ensures Holding(r, owner, cur) == Holding(m, owner, cur) + delta
    ensures forall o, c :: (o != owner || c != cur) ==> Holding(r, o, c) == Holding(m, o, c)
    ensures r.Keys == m.Keys + {owner}
  {
    var row := if owner in m then m[owner] else map[];
    m[owner := row[cur := Holding(m, owner, cur) + delta]]
  }

  /** PHP's empty() on a string: true for "" and for "0". */
  predicate PhpEmpty(s: string)
  {
    s == "" || s == "0"
  }

  /** strtolower on one character (ASCII letters only). */
  function LowerChar(c: char): char
  {
    if 'A' <= c <= 'Z' then (c as int + 32) as char else c
  }

  /** strtolower: every ASCII upper-case letter becomes lower case, nothing else changes. */
  function ToLower(s: string): (r: string)
    ensures |r| == |s|
    ensures forall i :: 0 <= i < |s| ==> r[i] == LowerChar(s[i])
    ensures forall i :: 0 <= i < |r| ==> !('A' <= r[i] <= 'Z')
  {
    if s == [] then [] else [LowerChar(s[0])] + ToLower(s[1..])
  }

  /** The CongressMember rows of `country`. */
  function MembersOf(members: set<Member>, country: int): (r: set<Member>)
    ensures r <= members
    ensures forall m :: m in r ==> m.country == country
    ensures forall m :: m in members && m.country == country ==> m in r
  {
    set m | m in members && m.country == country
  }

  /** The size of a country's congress. */
  function CountMembers(members: set<Member>, country: int): (n: nat)
    ensures n == |MembersOf(members, country)|
    ensures n <= |members|
    ensures n == 0 <==> forall m :: m in members ==> m.country != country
  {
    var r := MembersOf(members, country);
    assert (forall m :: m in members ==> m.country != country) ==> r == {};
    assert members == r + (members - r) && r !! (members - r);
    |r|
  }

  /** The CongressMember rows left after every row of `uid` is deleted, whatever its country. */
  function WithoutUser(members: set<Member>, uid: int): (r: set<Member>)
    ensures r <= members
    ensures forall m :: m in r ==> m.uid != uid
    ensures forall m :: m in members && m.uid != uid ==> m in r
  {
    set m | m in members && m.uid != uid
  }

  /** A new row of `country` adds one seat to its congress; a new row of any
      other country leaves it as it was. */
  lemma CountMembersAddRow(members: set<Member>, m: Member, country: int)
    requires m !in members
    ensures CountMembers(members + {m}, country) ==
            CountMembers(members, country) + (if m.country == country then 1 else 0)
  {
    var before := MembersOf(members, country);
    if m.country == country {
      assert MembersOf(members + {m}, country) == before + {m};
    } else {
      assert MembersOf(members + {m}, country) == before;
    }
  }
}
