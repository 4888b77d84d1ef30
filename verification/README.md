# Congress law lifecycle

A Dafny model of the law-proposal lifecycle in a country's congress, from the
`Congress` controller of the erep game. A user of a country submits a typed law
proposal (`proposeLaw`). Users of the same country then vote on it once each
(`voteLaw`), and every accepted vote triggers the law's effect (`applyLaw`). Neither
step asks for a congress seat, except that an impeachment needs its proposer to hold
one. There are seven law types:

- natural enemy: add an enemy relation;
- mutual protection pact: add an ally relation;
- work tax and manager tax: set the tax rate;
- impeachment: remove a member from congress;
- transfer funds: move money from the treasury to a member;
- cease fire: drop an enemy relation.

The model also covers the candidate-vote ledger (`voteCandidate`) and resignation
from congress (`resign`).

Files:

- `law_types.dfy` (module `LawTypes`):
  - the law-type codes, the anti-spam window and the fraud reason;
  - the stored records: proposals, vote keys, relations, members, candidacies and tax keys;
  - `Stores`, everything the controller reads or writes, with the storage invariant `Valid`;
  - balance lookup and credit over the funds and money ledgers;
  - PHP's `empty` on strings, `strtolower`, and the congress-size count.
- `law_rules.dfy` (module `LawRules`): each controller action as a function from the
  stores before to the stores after plus how the action returned (normally, or with
  the `INVALID_DATA` exception). The read-only checks of `proposeLaw` form a pure
  validity predicate, `Acceptable`.
- `law_properties.dfy` (module `LawProperties`) holds lemmas that relate several calls
  or the whole stores:
  - the storage invariant is kept by every action;
  - no action creates money, and the only action that destroys it is a transfer to a
    member without a Money row. Treasuries plus personal money in every currency are
    summed over all owners;
  - no treasury or personal balance goes below zero;
  - every proposal's counters equal its vote rows, until the transfer re-check
    overwrites them;
  - a second vote is refused;
  - quorums are frozen;
  - the spam window;
  - the source's as-written behaviours listed below.
- `congress.dfy` (module `CongressController`): class `Congress`, whose fields are the
  stores. Its methods change those fields in place, step by step as the controller does.
  Each method is proved to end in exactly the state, and to return exactly the way,
  that the matching `LawRules` function describes.

The acting user and their own country are explicit parameters; the clock is the field `now`.

### Behaviour as written (kept, not corrected)

One might expect more of a law lifecycle than the controller does. The model
follows the code in the points below. The two places where it deliberately departs
from the code, the stored law type and the saved tax rate, are listed under
"Left out".

1. `applyLaw` runs after every accepted vote, not only the vote that completes the
   tally. It does not look at the majority, and `voteLaw` never checks `finished`.
   So an effect can apply many times, and `yes + no` can exceed `expectedVotes`.
   See `EffectOnFirstVote` and `TallyPassesQuorum`. No exactly-once property and no
   bound on the tally are claimed.
2. The impeachment and transfer checks at submission test the proposer, not the
   target member (`ImpeachmentIgnoresTarget`). An impeachment naming a non-member
   is therefore accepted whenever the proposer sits in congress.
3. At submission, the transfer check reads the treasury of the requested target
   country. At application, it reads the proposal's own country
   (`TransferCheckReadsRequestedCountry`, `FraudDetected`).
4. Enemy and ally proposals never check that the target differs from the own
   country (`SelfTargetAccepted`).
5. Impeachment deletes the member's rows in every country
   (`ImpeachmentReachesOtherCountries`).
6. The spam window is inclusive: a proposal created exactly two days ago still
   blocks its proposer (`ThrottleBoundary`).
7. `voteLaw` never checks that the voter holds a congress seat. Any user of the
   country can vote, including one who resigned or was impeached, so
   `expectedVotes` does not limit who votes (`VoterNeedsNoSeat`).
8. A transfer to a member without a Money row debits the treasury and saves it,
   then dies on the missing row when its credit is saved (Congress.php:405-410). The
   amount is destroyed and the call fails (`MoneyRowMissing`, `ApplyLawConservesSupply`).
9. `proposeLaw` never checks that the proposer holds a congress seat, except for an
   impeachment. Any user of the country can submit the other six types
   (`ProposerNeedsNoSeat`).

## Model

| member | source | states |
|---|---|---|
| LawTypes.Credit | App/Controllers/Congress.php:405-410 | the credited balance moves by exactly the amount; every other (owner, currency) balance is unchanged |
| LawTypes.ToLower | App/Controllers/Congress.php:242 | the currency is lower-cased letter by letter, keeps its length and holds no upper-case ASCII letter |
| LawTypes.CountMembers | App/Controllers/Congress.php:333 | congress size of a country: exactly the number of member rows of that country, at most the number of all rows, and zero exactly when no row has that country |
| LawTypes.CountMembersAddRow | App/Controllers/Congress.php:333 | a new member row of the country raises its congress size by one; a row of another country leaves it unchanged |
| LawTypes.WithoutUser | App/Controllers/Congress.php:229-231 | after deleting a user's rows, none of their rows remain, in any country, and all other rows stay |
| LawRules.ProposeLaw | App/Controllers/Congress.php:236-338 | succeeds exactly when the type-dependent checks and the throttle pass. The checks are `KnownTypeAndReason` (247, with PHP `empty` as `PhpEmpty`), `TypeRuleHolds` (252-313, with a missing balance read as 0 by `Holding` at 309), and `Throttled` (315-323). Otherwise it fails with INVALID_DATA and changes nothing, in particular for an unknown type, an empty reason, a negative tax amount, or a throttled proposer. On success it adds exactly one proposal: 0 yes, 0 no, not finished, quorum equal to the current congress size, every submitted field kept. Nothing else changes |
| LawRules.CastVote | App/Controllers/Congress.php:176-216 | refuses a bad id, a missing law, another country's law, or a second vote by the same user (`VoteRejected`, 176-198), with INVALID_DATA and no change. Otherwise it adds one vote row, bumps exactly one of yes or no, and raises finished if the tally equals the quorum (never lowering it); everything else stays |
| LawRules.ApplyLaw | App/Controllers/Congress.php:340-413 | a missing id fails and changes nothing; each type's effect touches only its own store; cease fire drops only the own→target enemy relation; a transfer has three outcomes. When the treasury lacks the amount (`FraudDetected`, 394, a missing balance read as 0 by `Holding`), it moves nothing, rewrites the tally to 0 yes / quorum no with the fraud reason, and fails with INVALID_DATA. When the member has no Money row (`MoneyRowMissing`, 405-410), it debits the treasury only and fails. Otherwise it moves exactly the amount. Votes and quorums are never touched, and proposals change only when the re-check fires |
| LawRules.VoteLaw | App/Controllers/Congress.php:171-225 | a refused vote changes nothing. An accepted vote is recorded and the law is applied at once, finished or not. The call fails afterwards only when the transfer re-check fires or the member has no Money row |
| LawRules.VoteCandidate | App/Controllers/Congress.php:127-169 | one vote per (candidate uid, voter). A bad or unknown candidacy id, or a repeat vote (`CandidateVoteRejected`, 133-154), fails with no change. Otherwise it adds one vote key and bumps exactly one counter of that candidacy |
| LawRules.Resign | App/Controllers/Congress.php:227-234 | always succeeds; removes every member row of the user and changes nothing else |
| LawProperties.ProposeLawKeepsValid | App/Controllers/Congress.php:325-335 | a new proposal keeps ids positive and increasing |
| LawProperties.VoteLawKeepsValid | App/Controllers/Congress.php:207-219 | vote rows keep referring to existing proposals |
| LawProperties.OtherActionsKeepValid | App/Controllers/Congress.php:127-169 | candidate votes and resignations keep the storage invariant |
| LawProperties.SumOverPick | App/Controllers/Congress.php:405-410 | any owner can be taken out of a ledger's sum first (proved by induction) |
| LawProperties.SumOverAgree | App/Controllers/Congress.php:405-410 | ledgers that agree on a set of owners have the same sum over it |
| LawProperties.CreditShiftsSum | App/Controllers/Congress.php:405-410 | a credit moves the sum of its currency over all owners by exactly the amount and leaves other currencies' sums alone |
| LawProperties.ApplyLawLedgers | App/Controllers/Congress.php:387-411 | only a transfer that passes the re-check changes the funds and money ledgers; the member is credited only when their Money row exists |
| LawProperties.ApplyLawConservesSupply | App/Controllers/Congress.php:387-411 | applying any law leaves the total of every currency, over all treasuries plus all personal money, unchanged, except that a transfer to a member without a Money row lowers its currency's total by the amount |
| LawProperties.VoteLawConservesSupply | App/Controllers/Congress.php:171-225 | a vote, whether it returns normally or trips the transfer re-check, leaves the total of every currency unchanged, except for the loss of a transfer to a member without a Money row |
| LawProperties.ApplyLawKeepsFundsNonNeg | App/Controllers/Congress.php:388-406 | thanks to the re-check, applying any law leaves every treasury balance non-negative |
| LawProperties.ApplyLawKeepsSolvent | App/Controllers/Congress.php:340-413 | applying any law keeps every treasury and personal balance, and every transfer amount, non-negative |
| LawProperties.VoteLawKeepsSolvent | App/Controllers/Congress.php:171-225 | a vote keeps every balance and every transfer amount non-negative |
| LawProperties.OtherActionsKeepSolvent | App/Controllers/Congress.php:302-305 | submissions (which accept only non-negative transfer amounts), candidate votes and resignations keep every balance and transfer amount non-negative |
| LawProperties.OtherActionsConserveSupply | App/Controllers/Congress.php:127-338 | submissions, candidate votes and resignations leave the total of every currency unchanged |
| LawProperties.RecordedAfterVote | App/Controllers/Congress.php:206-207 | a new vote row joins exactly the (law, in_favor) group it belongs to |
| LawProperties.CastVoteKeepsTally | App/Controllers/Congress.php:200-216 | after recording a vote, every proposal's yes and no still equal its in-favour and against rows |
| LawProperties.ProposeLawKeepsTally | App/Controllers/Congress.php:325-335 | a new proposal starts with no vote rows and zero counters |
| LawProperties.VoteLawKeepsTally | App/Controllers/Congress.php:171-225 | a vote keeps counters and vote rows in step unless it is accepted and the transfer re-check fires; a failure for a missing Money row keeps them too |
| LawProperties.OtherActionsKeepTally | App/Controllers/Congress.php:127-169 | applying a law (except when the re-check fires), a candidate vote and a resignation keep every proposal's counters equal to its vote rows |
| LawProperties.SecondVoteRejected | App/Controllers/Congress.php:189-198 | after one accepted vote by a user on a law, a second one fails and changes nothing, even if the first application failed |
| LawProperties.QuorumFrozen | App/Controllers/Congress.php:333 | the quorum of every proposal survives votes, effects (including impeachment) and resignation |
| LawProperties.ResubmissionWithinTwoDaysFails | App/Controllers/Congress.php:315-323 | after a successful submission, the same proposer is refused until more than two days have passed |
| LawProperties.ThrottleBoundary | App/Controllers/Congress.php:316-319 | a proposal created at T still blocks at T + 2 days and no longer blocks one second later |
| LawProperties.EffectOnFirstVote | App/Controllers/Congress.php:213-219 | a single vote against an unfinished enemy law already creates the enemy relation |
| LawProperties.TallyPassesQuorum | App/Controllers/Congress.php:200-219 | a finished law still takes votes, so the tally passes the quorum and the model's tax store is written again |
| LawProperties.FraudRejectsTransfer | App/Controllers/Congress.php:388-403 | when the treasury lacks the amount, the deciding vote is recorded, the call fails, no balance moves, and the proposal shows 0 yes, quorum no and the fraud reason |
| LawProperties.ImpeachmentIgnoresTarget | App/Controllers/Congress.php:288-301 | whether an impeachment is accepted does not depend on its target member |
| LawProperties.TransferCheckReadsRequestedCountry | App/Controllers/Congress.php:302-312 | whether a transfer is accepted does not depend on the own country's treasury when the requested country differs |
| LawProperties.SelfTargetAccepted | App/Controllers/Congress.php:254-281 | a country may propose itself as its own enemy or its own ally |
| LawProperties.VoterNeedsNoSeat | App/Controllers/Congress.php:171-216 | a user with no congress seat in any country still has their vote recorded and counted |
| LawProperties.ProposerNeedsNoSeat | App/Controllers/Congress.php:247-323 | a user with no congress seat in any country can still submit a tax law that passes the other checks |
| LawProperties.ImpeachmentReachesOtherCountries | App/Controllers/Congress.php:382-386 | impeachment removes the member's row in every country |
| CongressController.Congress.constructor | App/Controllers/Congress.php:22-40 | the controller starts over the stores as they stand |
| CongressController.Congress.AdvanceClock | App/Controllers/Congress.php:318 | the clock moves and nothing else changes |
| CongressController.Congress.ProposeLaw | App/Controllers/Congress.php:236-338 | the in-place submission ends in the state and result of `LawRules.ProposeLaw` and keeps the storage invariant |
| CongressController.Congress.ApplyLaw | App/Controllers/Congress.php:340-413 | the in-place application ends in the state and result of `LawRules.ApplyLaw` |
| CongressController.Congress.VoteLaw | App/Controllers/Congress.php:171-225 | the in-place vote, including its call to `ApplyLaw`, ends in the state and result of `LawRules.VoteLaw` |
| CongressController.Congress.VoteCandidate | App/Controllers/Congress.php:127-169 | the in-place candidate vote ends in the state and result of `LawRules.VoteCandidate` |
| CongressController.Congress.Resign | App/Controllers/Congress.php:227-234 | the in-place resignation ends in the state of `LawRules.Resign` |

One might expect a law to apply exactly once, `yes + no ≤ expectedVotes`, a check
of the target member for impeachments, a target other than the own country, a seat
check for voters, and submission to succeed again at exactly two days. The code does
none of these (see "Behaviour as written").

## Left out

- LawTypes.Proposal: the source's create call (App/Controllers/Congress.php:325-335)
  writes no type column, so the `switch` of `applyLaw` (350) matches no case and, as
  written, no law ever takes effect. The model deliberately departs here: it stores the
  submitted type in `lawType` and dispatches on it, so every effect it proves
  (`EffectOnFirstVote`, `TallyPassesQuorum`, `FraudRejectsTransfer`,
  `ImpeachmentReachesOtherCountries`, the supply and solvency lemmas) is one the program
  as written never performs.
- LawRules.ApplyLaw: the tax branch assigns the loaded row's amount (359) and never
  saves it, so no tax rate is ever changed. The model deliberately writes the rate to
  its tax store.

- `declareWar` (App/Controllers/Congress.php:53-90) is unfinished in the source.
  `mustBePresident` and `isPresident` serve only it.
- `submitApplication` is a plain row creation with no rules. Candidacies are part of
  the stores the controller is constructed over.
- The cached `getOwnCountry` lookup and `App::user()`: the acting user and their own
  country are parameters.
- App/Controllers/Home.php (page rendering and session reads) is not part of this model.
- Request parsing (`Input::*`) is out of scope. Amounts are whole money units (`int`),
  not PHP floats.
- Storage failures are not modelled: every create, save and delete succeeds, so
  `voteLaw` and `voteCandidate` never return `false` and the failed-create branches
  never fire. Query mechanics are not modelled either. The anti-spam query is taken
  to mean "created_at ≥ now − 172800 seconds", so `strtotime`'s calendar arithmetic
  across daylight-saving changes is not modelled.
- Missing rows: a missing treasury row or balance column reads as 0, and a credit
  creates a missing column. A transfer to a member without a Money row is modelled.
  (The source never writes a tax row at all; see `LawRules.ApplyLaw` below.)
- LawRules.ApplyLaw: a transfer of amount 0 from a country with no treasury row
  succeeds in the model. In the source, the save on the missing row dies. No balance
  changes either way.
- `find(...)->first()` on Money and CongressCandidate is read as loading the looked-up
  row itself.
- Duplicate rows: relations and member rows are sets. A relation created twice or a
  member row repeated counts once.
- `ACCESS_DENIED` is raised only by left-out operations.
- Concurrency and the atomicity of check-then-debit: the source has no locking, and
  the model is sequential.
